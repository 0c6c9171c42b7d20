# Travel agency site: a verified model of its server logic and client state

The system is a small travel agency site. An Express server over a hosted
Postgres store (Supabase) serves public reads of destinations, packages and
hotels, takes inquiries (leads) and answers them with a WhatsApp link. Behind
an admin key it offers create, update, delete and list for destinations,
hotels and packages, plus an image upload. A React client has a home page
carousel, an inquiry form and admin pages for leads, packages and hotels.

This project models that logic in Dafny and proves what the code promises.

- **JavaScript values** (`values.dfy`, `numbers.dfy`, `text.dfy`,
  `sequences.dfy`): the JSON-shaped values the code handles, with the
  coercions it applies.
  - `Boolean`, `Number` and `String` are modelled.
  - A finite number is an exact decimal, so `Number(String(n)) == n` can be
    stated and proved.
  - Also modelled: `trim`, `split`, `join`, `toLowerCase`, `includes` and
    order-preserving `filter`.
- **Shared helpers** (`helpers.dfy`): id parsing, list normalisation,
  allow-list picking, the digit checks, the WhatsApp link and optional
  positive integers.
- **The store** (`store.dfy`): a `Database` class holding the four tables
  and the package–hotel join table as sequences of rows, kept newest first.
  - Ids come from per-table counters.
  - A failing store call is an input: a map from the call to the error
    message it returns.
  - Every admin handler and lead intake is a pure specification function
    `Spec(tables, request, faults)` giving the response and the new tables.
    A method over `Database` is proved to produce exactly that.
  - The properties are lemmas about the specification functions.
- **Admin handlers** (`admin_destinations.dfy`, `admin_hotels.dfy`,
  `admin_packages.dfy`) and the **admin key gate** (`admin_auth.dfy`).
  - The package update keeps the non-atomic gap between deleting a
    package's join rows and inserting the new ones.
- **Lead intake** (`lead_controller.dfy`): the ordered validation chain, the
  reference checks, the stored row and the eleven-line message.
- **Public reads** (`public_common.dfy`, `public_packages.dfy`,
  `public_destinations.dfy`, `public_hotels.dfy`): pure functions of the
  rows the store returns. The store's replies are parameters: functions
  from what the handler asks to what the store answers.
- **Upload** (`upload.dfy`): the segment sanitiser, `data:` URL splitting,
  the size guards and the extension rule.
  - The decoded length of the payload is an input.
  - So are the clock, the random id, the storage result and the public URL.
- **Client state** (`carousel.dfy`, `lead_form.dfy`, `admin_leads.dfy`,
  `admin_forms.dfy`, `admin_packages_page.dfy`, `admin_hotels_page.dfy`).
  - The carousel, the inquiry form and the two admin editors are classes
    whose methods update their fields.
  - The lead counter is a loop over the leads.
  - The filters, payloads and edit round trips are functions and lemmas.
  - API calls are inputs: their answer, or the message they failed with.

Where the intended behaviour and the code differ, the model follows the code.
- `statusCounts` in client/src/pages/admin/AdminLeadsPage.jsx:81-88 adds a
  lead whose status is the text `"all"` to the `all` count.
  - So `all` equals the number of leads only when no lead has that status
    (`AdminLeads.AllCountsLeads`).
- A lead without a status is counted under `new`, but the `new` tab does not
  show it.

## Model

| member | source | states |
|---|---|---|
| AdminAuth.Gate | server/src/middleware/adminAuth.js:1-18 | the request is passed on exactly when the key is configured, non-empty and equal to the header; an unset or empty key gives 500 whatever the header; otherwise 401 |
| AdminAuth.GateHeaderCases | server/src/middleware/adminAuth.js:5-15 | a missing or empty header gives 401 when a key is configured; with no key the header does not matter and the answer is 500 |
| HeroCarousel.NextIndex | client/src/components/HeroCarousel.jsx:61-64 | the next slide index stays in range, steps by one and wraps from the last slide to 0 |
| HeroCarousel.PrevIndex | client/src/components/HeroCarousel.jsx:66-69 | the previous slide index stays in range, steps back by one and wraps from 0 to the last slide |
| HeroCarousel.BackUndoesForward | client/src/components/HeroCarousel.jsx:61-69 | prev after next, and next after prev, give back the current slide |
| HeroCarousel.ForwardIsAddition | client/src/components/HeroCarousel.jsx:61-64 | k presses of next move the index to (current + k) mod n |
| HeroCarousel.FullCycle | client/src/components/HeroCarousel.jsx:61-64 | n presses of next return to the starting slide |
| HeroCarousel.Carousel.constructor | client/src/components/HeroCarousel.jsx:50-51 | the carousel starts on slide 0 moving forwards, over the fixed slide list |
| HeroCarousel.Carousel.Next | client/src/components/HeroCarousel.jsx:61-64 | sets the index to the next index and the direction to 1, keeping the index in range |
| HeroCarousel.Carousel.Prev | client/src/components/HeroCarousel.jsx:66-69 | sets the index to the previous index and the direction to -1, keeping the index in range |
| HeroCarousel.Carousel.GoTo | client/src/components/HeroCarousel.jsx:53-59 | a dot click moves to that slide, with direction 1 when it lies after the current slide and -1 otherwise |
| Helpers.ParseId | server/src/utils/helpers.js:5-8 | the result is null or a finite number, and it is null exactly when `Number(value)` is not finite |
| Helpers.ParseIdFalsyInputs | server/src/utils/helpers.js:5-8 | blank strings and null parse to the falsy id 0, not to null; undefined parses to null |
| Helpers.ParseIdOfIntText | server/src/utils/helpers.js:5-8 | a printed integer parses back to itself, and is truthy exactly when it is not 0 |
| Helpers.ParseIdOfNumberText | server/src/utils/helpers.js:5-8 | a string that reads as a finite number parses to that number |
| Helpers.TrimAll | server/src/utils/helpers.js:17 | every piece is trimmed, one for one |
| Helpers.CsvPieces | server/src/utils/helpers.js:15-18 | the pieces of a split are trimmed, non-empty and comma-free, and keep the order of the split |
| Helpers.NormalizeArrayOfArray | server/src/utils/helpers.js:11-13 | an array keeps exactly its truthy elements, in their order |
| Helpers.NormalizeArrayOfString | server/src/utils/helpers.js:14-19 | a string gives trimmed, non-empty, comma-free strings in left-to-right order |
| Helpers.NormalizeArrayOfOther | server/src/utils/helpers.js:20 | anything that is neither an array nor a string gives [] |
| Helpers.BlankHasNoPieces | server/src/utils/helpers.js:14 | a blank string gives no pieces, so the `trim().length` guard changes nothing |
| Helpers.CsvOfJoin | server/src/utils/helpers.js:15-18 | joining well-formed pieces with commas and splitting again gives the pieces back |
| Helpers.NormalizeJoinRoundTrip | server/src/utils/helpers.js:14-19 | normalising a string, joining with "," and normalising again gives the first result |
| Helpers.PickFields | server/src/utils/helpers.js:23-31 | a key is in the result exactly when the source is an object, the key is allowed and its value is not undefined; values are unchanged |
| Helpers.NumericReadsAsId | server/src/utils/helpers.js:33-35 | an all-digit string reads as the natural number it spells |
| Helpers.NatTextIsNumeric | server/src/utils/helpers.js:33-35 | every printed natural number passes the digit test |
| Helpers.SanitizeKeepsDigits | server/src/utils/helpers.js:37-39 | the result holds only digits, keeps their order and keeps every digit of the string form |
| Helpers.SanitizeIdempotent | server/src/utils/helpers.js:37-39 | sanitising twice is sanitising once |
| Helpers.BuildWhatsappUrl | server/src/utils/helpers.js:41-47 | null exactly when the sanitised number is empty; otherwise the wa.me prefix, the digits, "?text=" and the encoded message |
| Helpers.WhatsappUrlShape | server/src/utils/helpers.js:41-47 | the link starts with the wa.me prefix followed by a non-empty run of digits |
| Helpers.ToNullableArray | server/src/utils/helpers.js:49-54 | arrays come back unchanged, anything else as [] |
| Helpers.ParseOptionalInteger | server/src/utils/helpers.js:56-65 | undefined, null and "" give nothing; otherwise the value when `Number` of it is an integer of at least 1, and nothing when it is not |
| Helpers.ParseOptionalIntegerOfText | server/src/utils/helpers.js:56-65 | a printed integer is accepted as itself exactly when it is at least 1 |
| LeadIntake.FirstFailure | server/src/controllers/public/leadController.js:17-39 | the store-free checks pass exactly when name and phone are truthy and the travellers, budget, destination_id and package_id checks all pass |
| LeadIntake.TrimmedOrNull | server/src/controllers/public/leadController.js:44-50 | the column is null exactly when the field is falsy, and trimmed text otherwise |
| LeadIntake.LeadPayload | server/src/controllers/public/leadController.js:41-53 | the inserted row has exactly the eleven payload columns |
| LeadIntake.MessageLines | server/src/controllers/public/leadController.js:119-131 | the message has exactly eleven lines |
| LeadIntake.LookupStep | server/src/controllers/public/leadController.js:55-95 | the lookups before the insert can only end the request with a 400 or a 500 |
| LeadIntake.Created | server/src/controllers/public/leadController.js:133-139 | the answer is 201 with the stored lead, the WhatsApp link built from the message, and the message preview |
| LeadIntake.NameAndPhoneFirst | server/src/controllers/public/leadController.js:17-21 | a falsy name or phone gives 400 before any other check and leaves the tables unchanged |
| LeadIntake.TravellersRefused | server/src/controllers/public/leadController.js:23-30 | the travellers check refuses 0, -1, 2.5 and null |
| LeadIntake.TravellersZeroText | server/src/controllers/public/leadController.js:23-30 | the travellers check refuses the text "0" |
| LeadIntake.TravellersAccepted | server/src/controllers/public/leadController.js:23-30 | the travellers check accepts the number 3 and the text "3" |
| LeadIntake.BudgetRefused | server/src/controllers/public/leadController.js:24-33 | the budget check refuses the number 0, null and -5 |
| LeadIntake.BudgetZeroText | server/src/controllers/public/leadController.js:24-47 | the budget check accepts the text "0", which is stored as 0 |
| LeadIntake.IdEdgeCases | server/src/controllers/public/leadController.js:25-39 | an explicit null id or the id 0 is refused, and the id 7 passes |
| LeadIntake.ChecksInOrder | server/src/controllers/public/leadController.js:28-39 | the first failing check among travellers, budget, destination_id and package_id decides the 400 message, and the tables are unchanged |
| LeadIntake.ReferencesChecked | server/src/controllers/public/leadController.js:55-95 | a missing destination, a missing package or a package of another destination gives 400 and inserts nothing |
| LeadIntake.LeadRowFixed | server/src/controllers/public/leadController.js:51-52 | the inserted row has source "website" and status "new" |
| LeadIntake.LeadRowNameAndPhone | server/src/controllers/public/leadController.js:42-43 | name and phone are stored as trimmed text |
| LeadIntake.LeadRowOptional | server/src/controllers/public/leadController.js:44-50 | email, message and travel date are null exactly when their field is falsy |
| LeadIntake.AcceptedIsInsert | server/src/controllers/public/leadController.js:97-139 | a request that passes every check and meets no store error goes on to the insert |
| LeadIntake.LeadStored | server/src/controllers/public/leadController.js:4-140 | a 201 inserts exactly the new lead; any other answer leaves the tables unchanged; the tables stay well formed |
| LeadIntake.InsertStepFacts | server/src/controllers/public/leadController.js:97-139 | the insert step answers 201 and adds the lead under the next id |
| LeadIntake.LeadAnswered | server/src/controllers/public/leadController.js:116-139 | an accepted lead is answered 201, and its link is the WhatsApp link of the preview text |
| LeadIntake.MessageFallbacks | server/src/controllers/public/leadController.js:116-131 | the first line is fixed; destination and package fall back to "Not selected"; the budget shows as "INR" plus the value only when it is truthy |
| LeadIntake.MessageRoundTrip | server/src/controllers/public/leadController.js:119-131 | when no line holds a line break, splitting the preview on line breaks gives the eleven lines back |
| LeadIntake.SubmitLead | server/src/controllers/public/leadController.js:4-140 | the answer and the new tables are those of the submitLead specification |
| LeadIntake.CheckReferences | server/src/controllers/public/leadController.js:55-95 | the two lookups answer as the lookup step does and change nothing |
| LeadIntake.InsertAndAnswer | server/src/controllers/public/leadController.js:97-139 | the insert and the name lookups give the answer and the tables of the insert step |
| Store.ErrorResponse | server/src/controllers/admin/packageController.js:103 | an error answer carries its status and the message under "error" |
| Store.DataResponse | server/src/controllers/admin/packageController.js:97 | a data answer carries its status and the payload under "data" |
| Store.ListResponse | server/src/controllers/admin/packageController.js:39-46 | a list answer is a 200 whose "data" is the rows sent |
| Store.ListMeta | server/src/controllers/admin/packageController.js:42-45 | the metadata count is the number of rows sent, and "empty" holds exactly when there are none |
| Store.AsObject | server/src/controllers/admin/packageController.js:7 | a selected row shows its id under "id" and its other columns unchanged |
| Store.Find | server/src/controllers/admin/packageController.js:184-188 | the row found is in the table and has the key's id; nothing is found exactly when no row has that id |
| Store.Remove | server/src/controllers/admin/packageController.js:197 | the delete keeps exactly the rows whose id differs from the key |
| Store.Patch | server/src/controllers/admin/packageController.js:135-140 | the update keeps the number of rows and every row's id |
| Store.InsertKeepsTable | server/src/controllers/admin/packageController.js:74-78 | a row inserted under the next serial id keeps ids positive, distinct and below the counter |
| Store.InsertedRowFresh | server/src/controllers/admin/packageController.js:74-78 | the next serial id is not taken before the insert, and the inserted row is the one found under it afterwards |
| Store.RemoveFacts | server/src/controllers/admin/packageController.js:197 | the delete keeps the other rows in their order, keeps the table well formed, and no row with the key is left |
| Store.RemovePresentShrinks | server/src/controllers/admin/packageController.js:193-197 | deleting an id that is present removes exactly one row |
| Store.RemoveNone | server/src/controllers/admin/packageController.js:197 | deleting an id that no row has changes nothing |
| Store.PatchFacts | server/src/controllers/admin/packageController.js:135-140 | the update changes only the row with that id, which takes the patched columns over its old ones; the table stays well formed |
| Store.LinksOf | server/src/controllers/admin/packageController.js:8-11 | the join rows selected for a package are exactly its rows, in table order |
| Store.RemoveLinks | server/src/controllers/admin/packageController.js:151-154 | the delete of a package's join rows never adds rows |
| Store.RemoveLinksMembers | server/src/controllers/admin/packageController.js:151-154 | the delete keeps exactly the join rows of other packages |
| Store.MakeLinks | server/src/controllers/admin/packageController.js:160-163 | one join row per hotel id, in order, each naming the package |
| Store.LinksOfRemoved | server/src/controllers/admin/packageController.js:151-154 | after the delete the package has no join rows, and other packages keep theirs |
| Store.LinksOfMade | server/src/controllers/admin/packageController.js:160-164 | the new join rows all belong to the package they were made for |
| Store.RemoveLinksTwice | server/src/controllers/admin/packageController.js:151-154 | deleting a package's join rows twice is deleting them once |
| Store.ReplaceLinksExact | server/src/controllers/admin/packageController.js:149-169 | after the replacement the package's join rows are exactly the new list, in order, and every other package keeps its join rows |
| Store.ReplaceLinksIdempotent | server/src/controllers/admin/packageController.js:149-169 | replacing with the same list twice is replacing once |
| Store.ReplaceWithNothingClears | server/src/controllers/admin/packageController.js:149-169 | replacing with the empty list leaves the package with no join rows |
| Store.Database.InsertLead | server/src/controllers/public/leadController.js:97-101 | the lead is added in front under the next serial id; nothing else changes |
| Store.Database.InsertDestination | server/src/controllers/admin/destinationController.js:38-42 | the destination is added in front under the next serial id; nothing else changes |
| Store.Database.PatchDestination | server/src/controllers/admin/destinationController.js:70-75 | the destinations table becomes its patched form; nothing else changes |
| Store.Database.InsertHotel | server/src/controllers/admin/hotelController.js:47-51 | the hotel is added in front under the next serial id; nothing else changes |
| Store.Database.PatchHotel | server/src/controllers/admin/hotelController.js:89-94 | the hotels table becomes its patched form; nothing else changes |
| Store.Database.InsertPackage | server/src/controllers/admin/packageController.js:74-78 | the package is added in front under the next serial id; nothing else changes |
| Store.Database.PatchPackage | server/src/controllers/admin/packageController.js:135-140 | the packages table becomes its patched form; nothing else changes |
| Store.Database.AppendLinks | server/src/controllers/admin/packageController.js:164 | the new join rows go after the existing ones; nothing else changes |
| Store.Database.DeleteLinks | server/src/controllers/admin/packageController.js:151-154 | the package's join rows are removed; nothing else changes |
| Store.EmbedDestinations | server/src/controllers/admin/packageController.js:31-34 | one entry per row, in the store's order, each the row with its destination embedded |
| AdminDestinations.Payload | server/src/controllers/admin/destinationController.js:24-32 | a key is written exactly when it is one of the seven allow-listed fields and the body defines it; values are unchanged (also lines 56-64) |
| AdminDestinations.AsObjects | server/src/controllers/admin/destinationController.js:5-8 | the list sends one entry per destination, in table order |
| AdminDestinations.CreateRejectsIncomplete | server/src/controllers/admin/destinationController.js:34-36 | a missing name or slug gives 400 and writes nothing |
| AdminDestinations.CreateInserts | server/src/controllers/admin/destinationController.js:38-47 | a created destination gets a fresh id, holds exactly the supplied allow-listed fields, and is answered 201; other tables are unchanged |
| AdminDestinations.UpdateRejectsBadId | server/src/controllers/admin/destinationController.js:51-54 | an id that does not parse to a truthy number gives 400 and writes nothing |
| AdminDestinations.UpdateRejectsEmpty | server/src/controllers/admin/destinationController.js:56-68 | a body with no allow-listed field gives 400 before any store call |
| AdminDestinations.UpdateChangesOnlySupplied | server/src/controllers/admin/destinationController.js:70-83 | an absent destination gives 404 and writes nothing; otherwise 200, and only the supplied fields of that one destination change |
| AdminDestinations.PatchedDestinationsGood | server/src/controllers/admin/destinationController.js:70-75 | the patch keeps every other destination and gives the matched one the supplied fields over its old ones |
| AdminDestinations.DeleteOutcomes | server/src/controllers/admin/destinationController.js:86-110 | 400 for a bad id; 404 writing nothing for an absent destination; otherwise exactly that row goes and the answer is 204 |
| AdminDestinations.ListCounts | server/src/controllers/admin/destinationController.js:4-21 | the list is a 200 with every destination, and its count is the number of rows, empty exactly when there are none |
| AdminDestinations.CreateDestination | server/src/controllers/admin/destinationController.js:23-48 | the answer and the new tables are those of the create specification, and the tables stay well formed |
| AdminDestinations.CreateKeepsTables | server/src/controllers/admin/destinationController.js:23-48 | for every body and every set of store failures, the create keeps each table's ids distinct and below its counter |
| AdminDestinations.UpdateDestination | server/src/controllers/admin/destinationController.js:50-84 | the answer and the new tables are those of the update specification, and the tables stay well formed |
| AdminDestinations.UpdateKeepsTables | server/src/controllers/admin/destinationController.js:50-84 | for every body and every set of store failures, the update keeps each table's ids distinct and below its counter |
| AdminDestinations.DeleteDestination | server/src/controllers/admin/destinationController.js:86-110 | the answer and the new tables are those of the delete specification |
| AdminHotels.CreatePayload | server/src/controllers/admin/hotelController.js:24-39 | a key is written exactly when it is allow-listed and supplied, or is one of the four coerced columns, which are always written |
| AdminHotels.UpdatePayload | server/src/controllers/admin/hotelController.js:60-83 | a key is written exactly when it is allow-listed and supplied, and only supplied keys are coerced |
| AdminHotels.CreatePayloadColumns | server/src/controllers/admin/hotelController.js:36-39 | destination id through parseId, rating and price as a number or null, amenities through normalizeArray, name and slug unchanged |
| AdminHotels.CreateRejectsIncomplete | server/src/controllers/admin/hotelController.js:41-45 | a missing name or slug, or a destination id that parses to nothing or 0, gives 400 and writes nothing |
| AdminHotels.CreateInserts | server/src/controllers/admin/hotelController.js:47-51 | a created hotel gets a fresh id, holds only allow-listed columns, and is answered 201; packages and join rows are unchanged |
| AdminHotels.InsertedHotelFresh | server/src/controllers/admin/hotelController.js:47 | the serial id is not taken before the insert, and the new row is found under it afterwards |
| AdminHotels.UpdateRejectsBadId | server/src/controllers/admin/hotelController.js:55-58 | an id that does not parse to a truthy number gives 400 and writes nothing |
| AdminHotels.UpdateRejectsEmpty | server/src/controllers/admin/hotelController.js:85-87 | a body with no allow-listed field gives 400 before any store call |
| AdminHotels.UpdateChangesOnlySupplied | server/src/controllers/admin/hotelController.js:89-102 | an absent hotel gives 404 and writes nothing; otherwise 200, and only the supplied columns of that one hotel change |
| AdminHotels.PatchedHotelsGood | server/src/controllers/admin/hotelController.js:89-94 | the patch keeps every other hotel and gives the matched one the supplied columns over its old ones |
| AdminHotels.DeleteOutcomes | server/src/controllers/admin/hotelController.js:105-129 | 400 for a bad id; 404 writing nothing for an absent hotel; otherwise exactly that row goes and the answer is 204 |
| AdminHotels.ListCounts | server/src/controllers/admin/hotelController.js:4-21 | the list is a 200 with every hotel and its destination, and its count is the number of rows, empty exactly when there are none |
| AdminHotels.CreateHotel | server/src/controllers/admin/hotelController.js:23-52 | the answer and the new tables are those of the create specification, and the tables stay well formed |
| AdminHotels.CreateKeepsTables | server/src/controllers/admin/hotelController.js:23-52 | for every body and every set of store failures, the create keeps each table's ids distinct and below its counter |
| AdminHotels.UpdateHotel | server/src/controllers/admin/hotelController.js:54-103 | the answer and the new tables are those of the update specification, and the tables stay well formed |
| AdminHotels.UpdateKeepsTables | server/src/controllers/admin/hotelController.js:54-103 | for every body and every set of store failures, the update keeps each table's ids distinct and below its counter |
| AdminHotels.DeleteHotel | server/src/controllers/admin/hotelController.js:105-129 | the answer and the new tables are those of the delete specification |
| AdminPackages.CreatePayload | server/src/controllers/admin/packageController.js:50-66 | a key is written exactly when it is allow-listed and supplied, or is one of the five coerced columns, which are always written; each value is the field's coercion |
| AdminPackages.UpdatePayload | server/src/controllers/admin/packageController.js:106-132 | a key is written exactly when it is allow-listed and supplied, and only supplied keys are coerced |
| AdminPackages.CreatePayloadColumns | server/src/controllers/admin/packageController.js:62-66 | destination id through parseId, duration and price as a number or null, highlights through normalizeArray, the flag through Boolean, text fields unchanged |
| AdminPackages.UpdateCoercesLikeCreate | server/src/controllers/admin/packageController.js:118-132 | a supplied field is coerced by the update exactly as the create coerces it |
| AdminPackages.IdsOf | server/src/controllers/admin/packageController.js:84 | the hotel ids are truthy finite numbers and never more than the pieces given (also line 150) |
| AdminPackages.IdsOfAppend | server/src/controllers/admin/packageController.js:84 | the ids of two lists are the ids of each, concatenated: order is kept and repeats are not removed (also line 150) |
| AdminPackages.IdsOfPrinted | server/src/controllers/admin/packageController.js:84 | a printed positive id survives into the hotel id list as itself (also line 150) |
| AdminPackages.Embedded | server/src/controllers/admin/packageController.js:8-11 | one embedded hotel, or null, per join row |
| AdminPackages.EmbeddedTruthy | server/src/controllers/admin/packageController.js:23 | dropping the null embeddings keeps exactly the hotels that exist, in join-row order |
| AdminPackages.FetchPackage | server/src/controllers/admin/packageController.js:4-28 | nothing exactly when no package has the id; otherwise the package's columns and id, with hotels set to the existing hotels of its join rows in join-row order |
| AdminPackages.CreateRejectsIncomplete | server/src/controllers/admin/packageController.js:68-72 | a missing name or slug, or a destination id that parses to nothing or 0, gives 400 and writes nothing |
| AdminPackages.InsertedPackageFresh | server/src/controllers/admin/packageController.js:74-78 | the serial id is not taken before the insert, and the new row is found under it afterwards |
| AdminPackages.InsertedLinks | server/src/controllers/admin/packageController.js:84-94 | the new join rows follow whatever join rows the id already had, in order |
| AdminPackages.CreateInserts | server/src/controllers/admin/packageController.js:49-98 | a created package gets a fresh id and holds the create payload; its join rows are the body's hotel ids in order and with repeats; the answer is 201 with the fetched package |
| AdminPackages.UpdateRejectsBadId | server/src/controllers/admin/packageController.js:101-104 | an id that does not parse to a truthy number gives 400 and writes nothing |
| AdminPackages.UpdateMissingIs404 | server/src/controllers/admin/packageController.js:134-147 | with allow-listed fields but no such package, the answer is 404 and nothing is written, join rows included |
| AdminPackages.UpdateReplacesLinks | server/src/controllers/admin/packageController.js:149-169 | with hotel_ids present and both join writes succeeding, the package's join rows are exactly the new list and every other package keeps its own |
| AdminPackages.FetchStepKeeps | server/src/controllers/admin/packageController.js:171-175 | the closing read writes nothing |
| AdminPackages.ReplacedLinks | server/src/controllers/admin/packageController.js:133-169 | when the join writes go through, the join table after the update is the replacement of the package's join rows by the new list |
| AdminPackages.UpdateWithNoHotelsClears | server/src/controllers/admin/packageController.js:149-169 | an empty hotel_ids list leaves the package with no join rows |
| AdminPackages.UpdateLinkGap | server/src/controllers/admin/packageController.js:151-167 | when the insert of the new join rows fails after the delete, the answer is 500 and the package is left with no join rows |
| AdminPackages.UpdateEmptyBodyReads | server/src/controllers/admin/packageController.js:171-175 | a body with no allow-listed field and no hotel_ids writes nothing and is not rejected: it answers with the current package, or 404 (also lines 134, 149) |
| AdminPackages.PatchTwice | server/src/controllers/admin/packageController.js:135-140 | applying the same row update twice is applying it once |
| AdminPackages.UpdateWithoutFaults | server/src/controllers/admin/packageController.js:133-169 | without store errors the update leaves the tables of a full success, unless the row update finds no package, which writes nothing |
| AdminPackages.UpdateIdempotent | server/src/controllers/admin/packageController.js:100-176 | sending the same successful update twice leaves the tables as sending it once |
| AdminPackages.DeleteOutcomes | server/src/controllers/admin/packageController.js:178-202 | 400 for a bad id; 404 writing nothing for an absent package, checked before deleting; otherwise exactly that row goes and the answer is 204 |
| AdminPackages.ListCounts | server/src/controllers/admin/packageController.js:30-47 | the list is a 200 with every package and its destination, and its count is the number of rows, empty exactly when there are none |
| AdminPackages.CreatePackage | server/src/controllers/admin/packageController.js:49-98 | the answer and the new tables are those of the create specification, and the tables stay well formed |
| AdminPackages.CreateKeepsTables | server/src/controllers/admin/packageController.js:49-98 | for every body and every set of store failures (a join insert that fails after the row is in included), the create keeps each table's ids distinct and below its counter |
| AdminPackages.UpdatePackage | server/src/controllers/admin/packageController.js:100-176 | the answer and the new tables are those of the update specification, and the tables stay well formed |
| AdminPackages.ReplaceLinksKeepsTables | server/src/controllers/admin/packageController.js:149-175 | the join replacement and the closing read, whatever fails, keep each table's ids distinct and below its counter |
| AdminPackages.UpdateKeepsTables | server/src/controllers/admin/packageController.js:100-176 | for every body and every set of store failures, the update keeps each table's ids distinct and below its counter |
| AdminPackages.ReplaceLinksAndRead | server/src/controllers/admin/packageController.js:149-175 | the join replacement and the closing read give the answer and the tables of their specification step |
| AdminPackages.DeletePackage | server/src/controllers/admin/packageController.js:178-202 | the answer and the new tables are those of the delete specification |
| ReadAssembly.Dedup | server/src/controllers/public/packageController.js:28 | the result holds exactly the values of the input, each once, and is no longer than the input |
| ReadAssembly.DedupEmpty | server/src/controllers/public/packageController.js:28-35 | the de-duplicated id list is empty exactly when there are no rows, which is when the lookup is skipped |
| ReadAssembly.Column | server/src/controllers/public/packageController.js:28-29 | one value per row, in row order, each the row's column |
| ReadAssembly.LastWithKey | server/src/controllers/public/packageController.js:52-55 | the row found is one of the rows and has that id; nothing is found exactly when no row has it |
| ReadAssembly.IndexByIdFinds | server/src/controllers/public/packageController.js:52-55 | the lookup object holds a key exactly when some row has that id, and then holds the last such row |
| ReadAssembly.RowOrNull | server/src/controllers/public/packageController.js:70 | null exactly when the lookup object has no entry for the key, and the entry otherwise |
| ReadAssembly.HotelsOf | server/src/controllers/public/packageController.js:57-65 | a package's hotel list is never longer than the join rows |
| ReadAssembly.HotelsOfSnoc | server/src/controllers/public/packageController.js:57-65 | one more join row adds its hotel to its own package's list when the hotel is not null, and changes nothing else |
| ReadAssembly.HotelsOfAbsent | server/src/controllers/public/packageController.js:71 | a package with no join row gets no hotels |
| ReadAssembly.GroupHotelsIsHotelsOf | server/src/controllers/public/packageController.js:57-71 | the grouped list of a package, or [] when absent, is exactly its non-null joined hotels in join-row order |
| ReadAssembly.HotelsOfFromJoins | server/src/controllers/public/packageController.js:57-65 | every hotel a package is given comes from one of its own join rows |
| ReadAssembly.RowValues | server/src/controllers/public/packageController.js:71 | the rows as values, one for one, in order |
| ReadAssembly.EitherError | server/src/controllers/public/packageController.js:46-49 | the first lookup's message when it is non-empty, otherwise the second's, otherwise nothing |
| ReadAssembly.ServerError | server/src/controllers/public/packageController.js:47-49 | a 500 carrying the given error |
| ReadAssembly.WithAmenities | server/src/controllers/public/packageController.js:127-130 | the hotel keeps its other columns, and its amenities become an array, unchanged when they already were one |
| PublicPackages.EnrichAll | server/src/controllers/public/packageController.js:67-72 | one entry per package row, in the store's order, each built from its own row |
| PublicPackages.ListRejectsBadFilter | server/src/controllers/public/packageController.js:5-12 | a destinationId that is given but is not a positive integer, "" and null included, gives 400 before the store is asked |
| PublicPackages.ListPackageQueryFailure | server/src/controllers/public/packageController.js:14-25 | a failed package query gives 500 with its message; an absent filter asks for every package |
| PublicPackages.ListSkipsLookupsWhenEmpty | server/src/controllers/public/packageController.js:27-44 | with no package rows both lookups are skipped and the answer is the empty list, whatever the lookups would say |
| PublicPackages.DestinationIdsDistinct | server/src/controllers/public/packageController.js:28 | the destination lookup is asked for each destination id of the rows exactly once, and for nothing else |
| PublicPackages.EnrichedEntry | server/src/controllers/public/packageController.js:52-72 | each entry keeps its row's other columns, has highlights as an array, its destination or null, and exactly its non-null joined hotels in join-row order |
| PublicPackages.ListKeepsRows | server/src/controllers/public/packageController.js:67-80 | a successful list has one entry per package row, in the store's order; its count is the number of rows |
| PublicPackages.ListLookupFailure | server/src/controllers/public/packageController.js:46-50 | a failed lookup gives 500 with the destination lookup's message when it has one, else the join lookup's |
| PublicPackages.DetailHotels | server/src/controllers/public/packageController.js:124-130 | the package's hotels are never more than its join rows |
| PublicPackages.DetailsRejects | server/src/controllers/public/packageController.js:84-103 | an id that is not a positive integer gives 400; a package the store does not return gives 404 |
| PublicPackages.DetailHotelsFromJoins | server/src/controllers/public/packageController.js:124-130 | one hotel per join row with a non-null hotel, each with its amenities as an array |
| PublicPackages.DetailsShape | server/src/controllers/public/packageController.js:105-139 | the details are the package row with highlights as an array, the first destination row or null, and the hotels of its join rows |
| PublicDestinations.ListDestinationsView | server/src/controllers/public/destinationController.js:4-23 | a failed query gives 500 with its message; otherwise the rows in the store's order |
| PublicDestinations.ListDestinationsMeta | server/src/controllers/public/destinationController.js:14-22 | the count is the number of rows, and "empty" holds exactly when there are none |
| PublicDestinations.DestinationQuery | server/src/controllers/public/destinationController.js:28-33 | a non-empty all-digit segment is looked up as the id it spells; anything else as a slug, unchanged |
| PublicDestinations.EnrichPackages | server/src/controllers/public/destinationController.js:93-97 | one entry per package row, in the store's order, each built from its own row |
| PublicDestinations.EnrichHotels | server/src/controllers/public/destinationController.js:103-106 | one entry per hotel row, in the store's order, each with its amenities as an array |
| PublicDestinations.NotFound | server/src/controllers/public/destinationController.js:41-43 | no row under the id or slug gives 404 "Destination not found.", whatever else the store holds |
| PublicDestinations.SkipsJoinsWithoutPackages | server/src/controllers/public/destinationController.js:69-91 | a destination without packages never asks for join rows: the answer is the same whatever that lookup would say |
| PublicDestinations.DetailsShape | server/src/controllers/public/destinationController.js:93-108 | the destination's own columns stay beside its packages and hotels; each package has highlights as an array and exactly its non-null joined hotels in join-row order; each hotel has its amenities as an array |
| PublicHotels.EnrichAll | server/src/controllers/public/hotelController.js:42-46 | one entry per hotel row, in the store's order, each built from its own row |
| PublicHotels.RejectsBadFilter | server/src/controllers/public/hotelController.js:5-12 | a destinationId that is given but is not a positive integer gives 400 before the store is asked; an absent one filters nothing |
| PublicHotels.SkipsLookupWhenEmpty | server/src/controllers/public/hotelController.js:27-31 | with no hotel rows the destination lookup is skipped and the answer does not depend on it |
| PublicHotels.ListShape | server/src/controllers/public/hotelController.js:27-54 | one entry per hotel row, in the store's order, keeping its other columns, with amenities as an array and its destination or null; the count is the number of rows |
| Upload.Mask | server/src/controllers/uploadController.js:19 | the length is kept; a character of `[a-z0-9/_-]` stays and any other becomes `-` |
| Upload.CollapseDashes | server/src/controllers/uploadController.js:20 | the result is no longer, keeps the first character, has no `--` and keeps the characters inside the class |
| Upload.DropLeadingSeparators | server/src/controllers/uploadController.js:21 | the result is no longer and does not start with `-` or `/` |
| Upload.DropLeadingIsSuffix | server/src/controllers/uploadController.js:21 | what is left after the leading cut is a suffix of the input |
| Upload.DropTrailingSeparators | server/src/controllers/uploadController.js:21 | the result is no longer and does not end with `-` or `/` |
| Upload.DropTrailingIsPrefix | server/src/controllers/uploadController.js:21 | what is left after the trailing cut is a prefix of the input |
| Upload.CleanTextIsClean | server/src/controllers/uploadController.js:17-21 | the lowered, masked, collapsed and trimmed text has only class characters, no `--` and no separator at either end |
| Upload.Sanitize | server/src/controllers/uploadController.js:16-23 | `sanitizeSegment` returns the fallback or a non-empty clean segment, and the fallback whenever the rewriting leaves nothing |
| Upload.CollapseKeepsClean | server/src/controllers/uploadController.js:20 | a string without `--` is left alone by the collapse |
| Upload.LowerKeepsSegment | server/src/controllers/uploadController.js:18 | lowering leaves a string of class characters unchanged |
| Upload.SanitizeText | server/src/controllers/uploadController.js:16-23 | on a string, the sanitiser gives the rewriting when it is non-empty and the fallback otherwise |
| Upload.CleanTextKeepsClean | server/src/controllers/uploadController.js:17-21 | the rewriting leaves a clean string unchanged |
| Upload.SanitizeKeepsClean | server/src/controllers/uploadController.js:16-23 | a non-empty clean segment comes back unchanged |
| Upload.SanitizeIdempotent | server/src/controllers/uploadController.js:16-23 | sanitising a sanitised segment again changes nothing when the fallback is a fixed point (also lines 71-72) |
| Upload.SanitizeMasks | server/src/controllers/uploadController.js:19 | `"a b"` becomes `"a-b"` |
| Upload.SanitizeCollapses | server/src/controllers/uploadController.js:20-21 | `"-a--b/"` becomes `"a-b"` |
| Upload.CollapseRun | server/src/controllers/uploadController.js:20 | the run `--` inside `"-a--b/"` shrinks to one dash |
| Upload.DropSeparatorsAtEnds | server/src/controllers/uploadController.js:21 | `"-a-b/"` loses its leading `-` and trailing `/` |
| Upload.SanitizeFallsBack | server/src/controllers/uploadController.js:17-22 | a missing or falsy value gives the fallback |
| Upload.FirstSemicolon | server/src/controllers/uploadController.js:26 | the position of the first `;`, the length when there is none |
| Upload.ParseDataUrl | server/src/controllers/uploadController.js:25-34 | a match yields a non-empty media type without `;` and a non-empty single-line payload that recompose into the input |
| Upload.DataUrlParts | server/src/controllers/uploadController.js:26 | a string starting with `data:` with `;base64,` at a position splits into those pieces |
| Upload.DataUrlRoundTrip | server/src/controllers/uploadController.js:25-34 | every well-formed media type and payload, composed into a data URL, parse back to themselves |
| Upload.ComposeRest | server/src/controllers/uploadController.js:26 | a composed data URL starts with `data:` followed by the media type, `;base64,` and the payload |
| Upload.FirstSemicolonAfter | server/src/controllers/uploadController.js:26 | the first `;` of `a + t` is the one `t` starts with when `a` has none |
| Upload.DataUrlRejects | server/src/controllers/uploadController.js:26-29 | an empty media type or an empty payload gives null |
| Upload.ContentOf | server/src/controllers/uploadController.js:46-48 | a parseable `data_url` supplies both the payload and the content type; otherwise `base64` and `content_type` are used |
| Upload.DropTrailingSlashes | server/src/controllers/uploadController.js:73 | the result is no longer and does not end with `/` |
| Upload.LastSegment | server/src/controllers/uploadController.js:73 | the part after the last `/` contains no `/` |
| Upload.LastDot | server/src/controllers/uploadController.js:73 | the position of the last `.`, or none when the string has no `.` |
| Upload.Extname | server/src/controllers/uploadController.js:73 | `path.extname` is empty or a `.` followed by characters that are neither `.` nor `/` |
| Upload.FileExtension | server/src/controllers/uploadController.js:73 | the file name's extension without its dot contains no `.` and no `/` |
| Upload.ChooseExtension | server/src/controllers/uploadController.js:8-14 | the extension is never empty: the file name's extension, else the mime table's entry, else `jpg` (also lines 74-75) |
| Upload.LastSegmentWhole | server/src/controllers/uploadController.js:73 | a name without `/` is its own last segment |
| Upload.LastDotIs | server/src/controllers/uploadController.js:73 | a `.` with no `.` after it is the last dot |
| Upload.ExtnameAt | server/src/controllers/uploadController.js:73 | the extension of a slash-free name runs from its last dot, except for a leading dot and `..` |
| Upload.ExtnameOf | server/src/controllers/uploadController.js:73 | the same, for a name that is its own last segment |
| Upload.ExtnameOfName | server/src/controllers/uploadController.js:73 | `stem.ext` has the extension `.ext` |
| Upload.ExtnameOfDotFile | server/src/controllers/uploadController.js:73 | a dot file `.ext` has no extension |
| Upload.FileExtensionOfText | server/src/controllers/uploadController.js:73 | the file extension is `path.extname` without its dot, lowered |
| Upload.ExtensionFromName | server/src/controllers/uploadController.js:73-75 | the name's own extension wins, lowered; a dot file falls back to the mime table or `jpg` |
| Upload.DefaultBucket | server/src/controllers/uploadController.js:5 | the default bucket is never empty |
| Upload.WriteOf | server/src/controllers/uploadController.js:71-83 | an accepted payload always leads to a write |
| Upload.UploadImage | server/src/controllers/uploadController.js:36-98 | a refusal is answered as planned; after a write the answer is 201 exactly when the storage reports no error, and the storage's error is a 500 |
| Upload.UploadGuards | server/src/controllers/uploadController.js:50-69 | the guards in order: no payload 400, undecodable 400, empty 400, over 8 MiB 413; the write happens exactly when the decoded size is between 1 byte and 8 MiB |
| Upload.SizeBoundary | server/src/controllers/uploadController.js:67-69 | exactly 8388608 bytes are written and 8388609 are refused with 413 (also line 6) |
| Upload.WriteShape | server/src/controllers/uploadController.js:71-83 | the write goes to the sanitised bucket under `folder/stamp.extension` with a clean, non-empty folder, and the inferred content type or `image/<extension>` |
| Upload.GeneralIsClean | server/src/controllers/uploadController.js:71 | the default folder `general` is a clean segment (the default of line 42) |
| Upload.DataUrlDecides | server/src/controllers/uploadController.js:46-75 | a well-formed data URL decides the payload and the type, and its media type picks the extension when the file name has none |
| LeadForm.PresetText | client/src/components/LeadForm.jsx:28-29 | a preset becomes empty text exactly when it is falsy or prints as nothing |
| LeadForm.InitialForm | client/src/components/LeadForm.jsx:6-30 | the form opens with exactly the nine inputs, all empty except the preset destination and package |
| LeadForm.PackageOptionsChoose | client/src/components/LeadForm.jsx:35-42 | with no destination chosen every package is offered; otherwise exactly the packages of that destination, in their order |
| LeadForm.ChangedFields | client/src/components/LeadForm.jsx:49-58 | an edit sets its own input, clears the package when the destination changes and the package is not locked, and leaves every other input alone |
| LeadForm.NumberOrNullText | client/src/components/LeadForm.jsx:77-82 | an empty input becomes null and any other becomes `Number` of its text |
| LeadForm.AsStrings | client/src/components/LeadForm.jsx:76 | the spread form has exactly the inputs as keys |
| LeadForm.WithNumbersFields | client/src/components/LeadForm.jsx:75-83 | the body keeps every input; the four numeric ones are coerced and the rest are sent as their text |
| LeadForm.NumberOrEmptyText | client/src/components/LeadForm.jsx:77-82 | the corrected coercion: an empty input stays `""` and any other becomes `Number` of its text |
| LeadForm.PositiveNumberPasses | server/src/controllers/public/leadController.js:23-39 | a positive whole number in digits passes the travellers, budget and id checks |
| LeadForm.NullTravellersRefused | server/src/controllers/public/leadController.js:23-30 | a body with a name and a phone but null travellers is refused for its travellers |
| LeadForm.EmptyTravellersRefused | client/src/components/LeadForm.jsx:75-83 | as written, a form sent with the travellers input empty is refused by the lead endpoint |
| LeadForm.EmptyOrNumberPasses | server/src/controllers/public/leadController.js:23-39 | an empty or positive whole-number input, sent as `""` when empty, passes every numeric check |
| LeadForm.TextFieldTruthy | client/src/components/LeadForm.jsx:76 | a non-empty text input is sent as a truthy string |
| LeadForm.NumericFieldPasses | client/src/components/LeadForm.jsx:77-82 | with the corrected coercion, an empty or positive whole-number input passes its check |
| LeadForm.ChecksPass | server/src/controllers/public/leadController.js:17-39 | a body whose fields pass the checks one by one passes all of them |
| LeadForm.SubmitPayloadPasses | client/src/components/LeadForm.jsx:75-83 | with empty inputs sent as `""`, every form with a name, a phone and empty or positive numeric inputs passes the endpoint's checks |
| LeadForm.FreshFormSubmission | client/src/components/LeadForm.jsx:6-16 | the fresh form with a name and a phone is refused as written and accepted with the correction (also lines 75-83) |
| LeadForm.ResetForm | client/src/components/LeadForm.jsx:93-97 | the reset form has exactly the nine inputs |
| LeadForm.ResetRestoresInitial | client/src/components/LeadForm.jsx:26-30 | after a successful submission the form is the form the page opened with (also lines 93-97) |
| LeadForm.FailureText | client/src/components/LeadForm.jsx:99 | the error shown is never empty and is the thrown message when there is one |
| LeadForm.LeadFormState.constructor | client/src/components/LeadForm.jsx:26-33 | the state opens with the initial form, not submitting, and no feedback or error |
| LeadForm.LeadFormState.OnChange | client/src/components/LeadForm.jsx:49-58 | the form becomes the edited form and nothing else changes |
| LeadForm.LeadFormState.ClearForm | client/src/components/LeadForm.jsx:93-97 | the form returns to its initial value and nothing else changes |
| LeadForm.LeadFormState.OnSubmit | client/src/components/LeadForm.jsx:68-103 | the body sent is the form as the page builds it, each empty numeric input sent as null (so a form with no travellers typed in is refused by the endpoint); a success shows the saved notice, opens the link when truthy and resets the form; a failure keeps the form and shows the error; submitting ends false |
| AdminLeads.FilteredIsOneFilter | client/src/pages/admin/AdminLeadsPage.jsx:64-79 | the status filter followed by the search filter keeps exactly the leads that pass both, in one filter |
| AdminLeads.FilteredSelects | client/src/pages/admin/AdminLeadsPage.jsx:64-79 | the leads shown keep their order, and a lead is shown exactly when its status matches the tab and, for a non-blank search, the query occurs in its lowered name, its phone or its lowered email |
| AdminLeads.AllWithBlankSearch | client/src/pages/admin/AdminLeadsPage.jsx:66-69 | the "all" tab with a blank search box shows every lead |
| AdminLeads.NullStatusNotShownAsNew | client/src/pages/admin/AdminLeadsPage.jsx:67-84 | a lead without a status is counted under "new" but not shown on the "new" tab |
| AdminLeads.NameMatchIgnoresCase | client/src/pages/admin/AdminLeadsPage.jsx:70-73 | a query equal to the name up to case finds the lead |
| AdminLeads.LongerQueryHides | client/src/pages/admin/AdminLeadsPage.jsx:69-76 | the query is not trimmed: one longer than the name, the phone and the email hides the lead |
| AdminLeads.ContainsNoLonger | client/src/pages/admin/AdminLeadsPage.jsx:73-75 | a query longer than a text does not occur in it |
| AdminLeads.TalliesBounded | client/src/pages/admin/AdminLeadsPage.jsx:83-86 | each lead is counted under one key at most, so the five tallies add up to no more than the leads |
| AdminLeads.StatusCounts | client/src/pages/admin/AdminLeadsPage.jsx:81-88 | the counts have exactly the five keys; each status counts the leads whose status, or "new" when missing, is that status; "all" is the number of leads plus those whose status is the text "all"; the four statuses never exceed "all" |
| AdminLeads.TallySnoc | client/src/pages/admin/AdminLeadsPage.jsx:83-86 | one more lead adds one to the tally of its key and nothing to the others |
| AdminLeads.AllCountsLeads | client/src/pages/admin/AdminLeadsPage.jsx:82-85 | when no status is the text "all", the "all" count is the number of leads |
| AdminLeads.NoneCounted | client/src/pages/admin/AdminLeadsPage.jsx:83-86 | a key no lead maps to has tally 0 |
| AdminForms.ParseCsv | client/src/pages/admin/AdminPackagesPage.jsx:20-22 | every element is a non-empty piece with no comma and no white space at its ends, and a falsy value gives the empty list |
| AdminForms.MessageOr | client/src/pages/admin/AdminPackagesPage.jsx:89-102 | the thrown message is shown when there is one, and the shown text is never empty when the fallback is not |
| AdminForms.Spaced | client/src/pages/admin/AdminPackagesPage.jsx:121 | the pieces of a `", "`-join as a comma split sees them: the first as it is, each later one with a space in front |
| AdminForms.JoinSpaced | client/src/pages/admin/AdminPackagesPage.jsx:121 | joining with `", "` is joining the spaced pieces with `","` |
| AdminForms.JoinHead | client/src/pages/admin/AdminPackagesPage.jsx:121 | a prefix on the first piece of a join is a prefix of the join |
| AdminForms.TrimSpaced | client/src/pages/admin/AdminPackagesPage.jsx:21 | a trimmed non-empty piece with a space in front trims back to itself |
| AdminForms.SplitSpacedJoin | client/src/pages/admin/AdminPackagesPage.jsx:21 | splitting a `", "`-join of comma-free pieces on commas gives the spaced pieces (also line 121) |
| AdminForms.TrimAllSpaced | client/src/pages/admin/AdminPackagesPage.jsx:21 | trimming the spaced pieces gives the pieces back |
| AdminForms.ParseCsvOfJoin | client/src/pages/admin/AdminPackagesPage.jsx:20-22 | a list of non-empty, comma-free, trimmed strings joined with `", "` parses back to itself (also line 121) |
| AdminForms.CsvPiecesOfJoin | client/src/pages/admin/AdminPackagesPage.jsx:21 | the same, for the split, trim and filter steps on a non-empty list (also line 121) |
| AdminForms.JoinFirst | client/src/pages/admin/AdminPackagesPage.jsx:121 | a join is at least as long as its first piece |
| AdminForms.JoinStrs | client/src/pages/admin/AdminPackagesPage.jsx:121 | a list of strings prints as the join of the strings |
| AdminForms.ListRoundTrip | client/src/pages/admin/AdminPackagesPage.jsx:74 | a stored list of such strings survives an edit followed by an unchanged submit (also line 121) |
| AdminForms.NumberRoundTrip | client/src/pages/admin/AdminPackagesPage.jsx:72-73 | an integer column survives an edit and an unchanged submit, except 0, which comes back as null (also lines 118-119) |
| AdminForms.StoredNumberReadsBack | client/src/pages/admin/AdminPackagesPage.jsx:72-73 | a stored null or non-zero integer reads back from the text the edit writes (also lines 118-119) |
| AdminForms.MissingNumberRoundTrip | client/src/pages/admin/AdminPackagesPage.jsx:72-73 | a missing column is edited as an empty input and sent as null (also lines 118-119) |
| AdminForms.NumbersOf | client/src/pages/admin/AdminPackagesPage.jsx:75 | each piece becomes `Number` of its text, one for one |
| AdminForms.IdListKeeps | client/src/pages/admin/AdminPackagesPage.jsx:75 | the hotel ids keep the input's order, and an id is kept exactly when its piece reads as a number other than 0 and NaN |
| AdminForms.NatTextIsItem | client/src/pages/admin/AdminPackagesPage.jsx:110 | the decimal spelling of an id is a well-formed list element |
| AdminForms.IdsRoundTrip | client/src/pages/admin/AdminPackagesPage.jsx:75 | positive ids written into the input and submitted unchanged come back as the same numbers in the same order (also line 110) |
| AdminForms.IdsPrintAsText | client/src/pages/admin/AdminPackagesPage.jsx:110 | the edit prints stored ids as their decimal spellings |
| AdminPackagesPage.PackageInit | client/src/pages/admin/AdminPackagesPage.jsx:7-18 | the empty form has exactly the ten inputs |
| AdminPackagesPage.PayloadKeys | client/src/pages/admin/AdminPackagesPage.jsx:69-76 | the body carries every input, and the five converted ones even when the form lacks them |
| AdminPackagesPage.PayloadNumber | client/src/pages/admin/AdminPackagesPage.jsx:71-73 | the destination, the duration and the price are null exactly when their input is falsy, and otherwise the number the input reads as |
| AdminPackagesPage.PayloadNumberOf | client/src/pages/admin/AdminPackagesPage.jsx:71-73 | those three are the input's `Number` or null |
| AdminPackagesPage.PayloadLists | client/src/pages/admin/AdminPackagesPage.jsx:74-75 | the highlights are the parsed input, and the hotel ids the parsed input read as numbers with 0 and NaN dropped |
| AdminPackagesPage.PayloadKeeps | client/src/pages/admin/AdminPackagesPage.jsx:70 | every other input is sent as it is |
| AdminPackagesPage.PayloadHotelIds | client/src/pages/admin/AdminPackagesPage.jsx:75 | the hotel ids sent are an array of numbers other than 0 and NaN |
| AdminPackagesPage.SubmitCall | client/src/pages/admin/AdminPackagesPage.jsx:78-84 | a truthy edited id gives an update of that id, otherwise a create, always with the body built from the form |
| AdminPackagesPage.EditForm | client/src/pages/admin/AdminPackagesPage.jsx:114-125 | the edit fills exactly the ten inputs, and fails exactly when the stored highlights are truthy but not an array |
| AdminPackagesPage.HotelIdsOfDetails | client/src/pages/admin/AdminPackagesPage.jsx:109-110 | the ids of stored hotels are written as their decimal spellings joined with `", "` |
| AdminPackagesPage.EditedInput | client/src/pages/admin/AdminPackagesPage.jsx:114-125 | each input holds what the edit writes for its column |
| AdminPackagesPage.EditWritesHighlights | client/src/pages/admin/AdminPackagesPage.jsx:121 | an edit writes the stored highlights joined with `", "` |
| AdminPackagesPage.SubmitReadsHighlights | client/src/pages/admin/AdminPackagesPage.jsx:74 | a submit sends the highlights a `", "`-joined input holds |
| AdminPackagesPage.HighlightsRoundTrip | client/src/pages/admin/AdminPackagesPage.jsx:74 | editing a package and submitting unchanged sends its highlights back (also line 121) |
| AdminPackagesPage.HotelIdsRoundTrip | client/src/pages/admin/AdminPackagesPage.jsx:75 | editing a package and submitting unchanged sends the ids of its hotels back, in order (also lines 110, 124) |
| AdminPackagesPage.EditWritesNumber | client/src/pages/admin/AdminPackagesPage.jsx:115-119 | an edit writes a number column as its text, or empty when falsy |
| AdminPackagesPage.SubmitReadsNumber | client/src/pages/admin/AdminPackagesPage.jsx:71-73 | a number input holding the text of a stored number sends that number |
| AdminPackagesPage.NumberInputRoundTrip | client/src/pages/admin/AdminPackagesPage.jsx:71-73 | a stored null or non-zero integer survives an edit and an unchanged submit (also lines 115, 118-119) |
| AdminPackagesPage.EditWritesText | client/src/pages/admin/AdminPackagesPage.jsx:116-122 | an edit writes a text column as it is, or empty when falsy |
| AdminPackagesPage.TextInputRoundTrip | client/src/pages/admin/AdminPackagesPage.jsx:116-117 | a stored text survives an edit and an unchanged submit; a missing one comes back as `""` (also lines 70, 120, 122) |
| AdminPackagesPage.FeaturedRoundTrip | client/src/pages/admin/AdminPackagesPage.jsx:70 | a stored flag survives an edit and an unchanged submit; a null one comes back as false (also line 123) |
| AdminPackagesPage.PackageEditor.constructor | client/src/pages/admin/AdminPackagesPage.jsx:29-33 | the page opens with the empty form, nothing being edited and no messages |
| AdminPackagesPage.PackageEditor.OnFieldChange | client/src/pages/admin/AdminPackagesPage.jsx:128-129 | the one input takes the value and nothing else changes |
| AdminPackagesPage.PackageEditor.Submit | client/src/pages/admin/AdminPackagesPage.jsx:65-91 | the call is the one the form and the edited id give; a success empties the form, stops editing and says what was done; a failure keeps both and shows the error |
| AdminPackagesPage.PackageEditor.Cancel | client/src/pages/admin/AdminPackagesPage.jsx:202-206 | while a package is edited, Cancel ends the edit and empties the form, leaving the notices |
| AdminPackagesPage.PackageEditor.StartEdit | client/src/pages/admin/AdminPackagesPage.jsx:106-126 | the package becomes the one edited and the form is filled from it, or left as it was when its highlights cannot be joined |
| AdminHotelsPage.HotelInit | client/src/pages/admin/AdminHotelsPage.jsx:7-17 | the empty form has exactly the nine inputs, all empty |
| AdminHotelsPage.PayloadKeys | client/src/pages/admin/AdminHotelsPage.jsx:61-67 | the body carries every input, and the four converted ones even when the form lacks them |
| AdminHotelsPage.PayloadNumber | client/src/pages/admin/AdminHotelsPage.jsx:63-65 | the destination, the star rating and the price are null exactly when their input is falsy, and otherwise the number the input reads as |
| AdminHotelsPage.PayloadNumberOf | client/src/pages/admin/AdminHotelsPage.jsx:63-65 | those three are the input's `Number` or null |
| AdminHotelsPage.PayloadAmenities | client/src/pages/admin/AdminHotelsPage.jsx:19-21 | the amenities are the parsed input: non-empty trimmed pieces without commas (also line 66) |
| AdminHotelsPage.PayloadKeeps | client/src/pages/admin/AdminHotelsPage.jsx:62 | every other input is sent as it is |
| AdminHotelsPage.SubmitCall | client/src/pages/admin/AdminHotelsPage.jsx:69-75 | a truthy edited id gives an update of that id, otherwise a create, always with the body built from the form |
| AdminHotelsPage.EditForm | client/src/pages/admin/AdminHotelsPage.jsx:212-222 | the edit fills exactly the nine inputs, and fails exactly when the stored amenities are truthy but not an array |
| AdminHotelsPage.EditedInput | client/src/pages/admin/AdminHotelsPage.jsx:212-222 | each input holds what the edit writes for its column |
| AdminHotelsPage.EditWritesAmenities | client/src/pages/admin/AdminHotelsPage.jsx:219 | an edit writes the stored amenities joined with `", "` |
| AdminHotelsPage.SubmitReadsAmenities | client/src/pages/admin/AdminHotelsPage.jsx:66 | a submit sends the amenities a `", "`-joined input holds |
| AdminHotelsPage.AmenitiesRoundTrip | client/src/pages/admin/AdminHotelsPage.jsx:66 | editing a hotel and submitting unchanged sends its amenities back (also line 219) |
| AdminHotelsPage.EditWritesNumber | client/src/pages/admin/AdminHotelsPage.jsx:213-217 | an edit writes a number column as its text, or empty when falsy |
| AdminHotelsPage.SubmitReadsNumber | client/src/pages/admin/AdminHotelsPage.jsx:63-65 | a number input holding the text of a stored number sends that number |
| AdminHotelsPage.NumberInputRoundTrip | client/src/pages/admin/AdminHotelsPage.jsx:63-65 | a stored null or non-zero integer survives an edit and an unchanged submit (also lines 213, 216-217) |
| AdminHotelsPage.EditWritesText | client/src/pages/admin/AdminHotelsPage.jsx:214-221 | an edit writes a text column as it is, or empty when falsy |
| AdminHotelsPage.TextInputRoundTrip | client/src/pages/admin/AdminHotelsPage.jsx:214-215 | a stored text survives an edit and an unchanged submit; a missing one comes back as `""` (also lines 62, 218, 220-221) |
| AdminHotelsPage.HotelEditor.constructor | client/src/pages/admin/AdminHotelsPage.jsx:27-31 | the page opens with the empty form, nothing being edited and no messages |
| AdminHotelsPage.HotelEditor.OnFieldChange | client/src/pages/admin/AdminHotelsPage.jsx:97-98 | the one input takes the value and nothing else changes |
| AdminHotelsPage.HotelEditor.Submit | client/src/pages/admin/AdminHotelsPage.jsx:57-82 | the call is the one the form and the edited id give; a success empties the form, stops editing and says what was done; a failure keeps both and shows the error |
| AdminHotelsPage.HotelEditor.Cancel | client/src/pages/admin/AdminHotelsPage.jsx:164-168 | while a hotel is edited, Cancel ends the edit and empties the form, leaving the notices |
| AdminHotelsPage.HotelEditor.StartEdit | client/src/pages/admin/AdminHotelsPage.jsx:210-222 | the hotel becomes the one edited and the form is filled from it, or left as it was when its amenities cannot be joined |
| JsValues.NumberOrNull | client/src/pages/admin/AdminHotelsPage.jsx:63-65 | `v ? Number(v) : null` is null exactly for a falsy value and otherwise the number the value reads as |
| JsNumbers.IntTextRoundTrip | server/src/utils/helpers.js:6 | `Number` of the decimal text of an integer is that integer |
| JsNumbers.DigitsReadAsInteger | server/src/utils/helpers.js:33-35 | a non-empty string of digits reads as the integer its digits spell (also line 6) |
| JsNumbers.NumberTextOfInt | server/src/utils/helpers.js:34-38 | `String` of an integer is its decimal text |
| Text.Trim | server/src/utils/helpers.js:14-17 | the trimmed text has no white space at its ends and is no longer |
| Text.TrimEmptyIffBlank | server/src/utils/helpers.js:14 | trimming gives the empty string exactly when the text is all white space |
| Text.Split | server/src/utils/helpers.js:16 | a split yields at least one piece and no piece holds the separator |
| Text.SplitJoin | server/src/utils/helpers.js:16 | splitting a join of separator-free pieces gives the pieces back |
| Text.ToLower | server/src/controllers/uploadController.js:18 | lowering keeps the length and lowers each character on its own |
| Text.ContainsIffOccurs | client/src/pages/admin/AdminLeadsPage.jsx:73-75 | `includes` holds exactly when the query occurs at some position |

## Left out

- The hosted store's own behaviour is not modelled: foreign keys, cascades, column types and the SQL sort. Rows are kept in the order the list queries ask for; the join table accepts any pair of numbers, as the handlers send it.
- The store rejects a non-integer id with a cast error; that error is not modelled. An `.eq("id", n)` lookup simply matches no row unless `n` is an integer equal to the id.
- Only the store's own errors are modelled on the write paths. An exception thrown inside a handler is answered with the application's 500 handler (server/src/index.js:36-41). Under Express 4 such an async rejection may instead leave the request unanswered; that is not modelled.
- `Promise.all` runs its lookups one after another, and a failing lookup is an entry in the fault map.
- `encodeURIComponent` is a function parameter of the WhatsApp link builder.
- The clock, the random id, the locale date format and `toLocaleString` are left out or taken as inputs.
- `Number` of a string covers optional white space, a sign, decimal digits with an optional fraction, and `Infinity`. Exponent notation, hexadecimal literals and binary floating-point rounding are not modelled; a finite number is an exact decimal.
- `toLowerCase` lowers ASCII letters only.
- Objects are maps from keys to values; inherited prototype keys such as `toString` are not modelled.
- `Dedup` compares ids as the model represents them, while `Set` uses SameValueZero. The two agree on the integers and `null` that the id columns hold; `NaN` and other non-integer keys are not modelled.
- Upload.UploadImage: base64 decoding is not modelled. The decoded length, or its failure, is a parameter `decodedLength`, so the model does not tie the payload's text to its size.
- Upload.Extname: models `path.extname` on POSIX paths only.
- The storage bucket, the written file and the public URL are inputs to `UploadImage`; what the storage does with the file is not modelled.
- The pages' `loadData` and `loadLeads` reloads, the delete buttons with their confirm dialogs, and all rendering are left out.
- The admin lead, settings and service-role controllers and the route files are thin wrappers and are not part of this model.
- JWT decoding in server/src/lib/supabase.js, the network scripts and the client API module are not part of this model.
- `toLowerCase`, `includes` and `join` throw on values of the wrong type. The model converts such values to text with `String`; only the edit forms' `join` on a non-array is modelled as the throw it is.
- Store.Database.constructor: starts from empty tables; the supabase client in server/src/lib/supabase.js and the data it reaches are not modelled.

## Findings

| source | as written | input that shows it | evidently intended | confidence | as-written member | corrected member |
|---|---|---|---|---|---|---|
| client/src/components/LeadForm.jsx:75-83 | an empty numeric input is sent as `null`, and the lead endpoint's travellers check (server/src/controllers/public/leadController.js:28-30) refuses `null` | the fresh inquiry form with only a name and a phone typed in | an optional number left empty is accepted, as the endpoint does for `""` | not executed | LeadForm.EmptyTravellersRefused | LeadForm.SubmitPayloadPasses |
