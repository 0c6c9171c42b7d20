/** The admin lead list (client/src/pages/admin/AdminLeadsPage.jsx): the
    leads shown for the chosen status tab and search box, and the number on
    each tab. Leads are the rows the admin API returns. */
module AdminLeads {
  import opened Text
  import opened JsValues
  import opened Sequences

  /** The status tabs other than "all", which are the keys counted. */
  const Statuses: set<string> := {"new", "contacted", "converted", "lost"}

  /** The keys of the counts object. */
  const CountKeys: set<string> := {"all", "new", "contacted", "converted", "lost"}

  /** `(v || "")` as the string the search reads. */
  function TextOrEmpty(v: JsValue): string {
    ToText(Or(v, Str("")))
  }

  /** The status tab keeps exact matches of the lead's status; "all" keeps
      everything. */
  predicate StatusMatches(lead: Object, statusFilter: string) {
    statusFilter == "all" || Get(lead, "status") == Str(statusFilter)
  }

  /** The search box: the lowercased query must occur in the lowercased name,
      in the phone as it is, or in the lowercased email. */
  predicate SearchMatches(lead: Object, q: string) {
    || Contains(ToLower(TextOrEmpty(Get(lead, "full_name"))), q)
    || Contains(TextOrEmpty(Get(lead, "phone")), q)
    || Contains(ToLower(TextOrEmpty(Get(lead, "email"))), q)
  }

  /** A search applies only when the box holds more than white space; the
      query then is the box lowercased, surrounding spaces included. */
  predicate Selected(lead: Object, statusFilter: string, search: string) {
    && StatusMatches(lead, statusFilter)
    && (Trim(search) == "" || SearchMatches(lead, ToLower(search)))
  }

  /** `filtered`: the status filter, then the search filter. */
  function Filtered(leads: seq<Object>, statusFilter: string, search: string): seq<Object>
  {
    var byStatus :=
      if statusFilter != "all" then Filter(leads, (lead: Object) => Get(lead, "status") == Str(statusFilter))
      else leads;
    if Trim(search) != "" then Filter(byStatus, (lead: Object) => SearchMatches(lead, ToLower(search)))
    else byStatus
  }

  /** The two filters in a row are one filter by both conditions. */
  lemma FilteredIsOneFilter(leads: seq<Object>, statusFilter: string, search: string)
    ensures Filtered(leads, statusFilter, search)
         == Filter(leads, (lead: Object) => Selected(lead, statusFilter, search))
  {
    TwoFiltersAsOne(leads,
      statusFilter != "all", (lead: Object) => Get(lead, "status") == Str(statusFilter),
      Trim(search) != "", (lead: Object) => SearchMatches(lead, ToLower(search)),
      (lead: Object) => Selected(lead, statusFilter, search));
  }

  /** The leads shown are a subsequence of the leads, in their order, and
      a lead is shown exactly when it is selected by both filters. */
  lemma FilteredSelects(leads: seq<Object>, statusFilter: string, search: string, lead: Object)
    ensures IsSubsequence(Filtered(leads, statusFilter, search), leads)
    ensures lead in Filtered(leads, statusFilter, search) <==> lead in leads && Selected(lead, statusFilter, search)
  {
    var both := (l: Object) => Selected(l, statusFilter, search);
    FilteredIsOneFilter(leads, statusFilter, search);
    FilterIsSubsequence(leads, both);
    FilterMembers(leads, both, lead);
  }

  /** The "all" tab with a blank search box shows every lead. */
  lemma AllWithBlankSearch(leads: seq<Object>, search: string)
    requires Trim(search) == ""
    ensures Filtered(leads, "all", search) == leads
  {
  }

  /** A lead without a status is counted on the "new" tab but is not shown
      under it: the tab compares the status itself, the count its default. */
  lemma NullStatusNotShownAsNew(leads: seq<Object>, search: string, lead: Object)
    requires Get(lead, "status") == Null || Get(lead, "status") == Undefined
    ensures lead !in Filtered(leads, "new", search)
    ensures CountKey(lead) == "new"
  {
    FilteredSelects(leads, "new", search, lead);
  }

  /** The name is matched without regard to case: a query that lowercases
      to the lowercased name shows the lead. */
  lemma NameMatchIgnoresCase(leads: seq<Object>, statusFilter: string, search: string, lead: Object)
    requires lead in leads && StatusMatches(lead, statusFilter)
    requires ToLower(search) == ToLower(TextOrEmpty(Get(lead, "full_name")))
    ensures lead in Filtered(leads, statusFilter, search)
  {
    assert Contains(ToLower(search), ToLower(search));
    FilteredSelects(leads, statusFilter, search, lead);
  }

  /** The query is not trimmed: once the box holds more than white space, a
      query longer than the name, the phone and the email of a lead, spaces
      included, hides it. */
  lemma LongerQueryHides(leads: seq<Object>, statusFilter: string, search: string, lead: Object)
    requires Trim(search) != ""
    requires |search| > |TextOrEmpty(Get(lead, "full_name"))|
    requires |search| > |TextOrEmpty(Get(lead, "phone"))|
    requires |search| > |TextOrEmpty(Get(lead, "email"))|
    ensures lead !in Filtered(leads, statusFilter, search)
  {
    var q := ToLower(search);
    ContainsNoLonger(ToLower(TextOrEmpty(Get(lead, "full_name"))), q);
    ContainsNoLonger(TextOrEmpty(Get(lead, "phone")), q);
    ContainsNoLonger(ToLower(TextOrEmpty(Get(lead, "email"))), q);
    FilteredSelects(leads, statusFilter, search, lead);
  }

  /** A query longer than the text does not occur in it. */
  lemma {:induction false} ContainsNoLonger(s: string, q: string)
    requires |q| > |s|
    ensures !Contains(s, q)
  {
    if |s| > 0 {
      ContainsNoLonger(s[1..], q);
    }
  }

  // -----------------------------------------------------------------------
  // statusCounts

  /** The key a lead is counted under: `lead.status || "new"`, as a
      property name. */
  function CountKey(lead: Object): string {
    ToText(Or(Get(lead, "status"), Str("new")))
  }

  /** The number of leads counted under `key`. */
  function Tally(leads: seq<Object>, key: string): nat {
    Count(leads, (lead: Object) => CountKey(lead) == key)
  }

  /** Each lead is counted under one key at most, so the tallies of the
      five keys add up to no more than the leads. */
  lemma {:induction false} TalliesBounded(leads: seq<Object>)
    ensures Tally(leads, "all") + Tally(leads, "new") + Tally(leads, "contacted")
          + Tally(leads, "converted") + Tally(leads, "lost") <= |leads|
  {
    if |leads| > 0 {
      TalliesBounded(leads[1..]);
    }
  }

  /** `statusCounts`: starts from `all` at the number of leads and each
      status at 0, then adds one under each lead's key when that key is one
      of the counts. A lead whose status is the text "all" adds to `all`. */
  method StatusCounts(leads: seq<Object>) returns (counts: map<string, int>)
    ensures counts.Keys == CountKeys
    ensures counts["all"] == |leads| + Tally(leads, "all")
    ensures forall s :: s in Statuses ==> counts[s] == Tally(leads, s)
    ensures counts["new"] + counts["contacted"] + counts["converted"] + counts["lost"] <= counts["all"]
  {
    counts := map["all" := |leads|, "new" := 0, "contacted" := 0, "converted" := 0, "lost" := 0];
    var i := 0;
    while i < |leads|
      invariant 0 <= i <= |leads|
      invariant counts.Keys == CountKeys
      invariant counts["all"] == |leads| + Tally(leads[..i], "all")
      invariant forall s :: s in Statuses ==> counts[s] == Tally(leads[..i], s)
    {
      var s := CountKey(leads[i]);
      TallySnoc(leads, i, "all");
      TallySnoc(leads, i, "new");
      TallySnoc(leads, i, "contacted");
      TallySnoc(leads, i, "converted");
      TallySnoc(leads, i, "lost");
      if s in counts {
        counts := counts[s := counts[s] + 1];
      }
      i := i + 1;
    }
    assert leads[..i] == leads;
    TalliesBounded(leads);
  }

  /** One more lead adds one to the tally of its key and none elsewhere. */
  lemma TallySnoc(leads: seq<Object>, i: nat, key: string)
    requires i < |leads|
    ensures Tally(leads[..i + 1], key) == Tally(leads[..i], key) + (if CountKey(leads[i]) == key then 1 else 0)
  {
    CountSnoc(leads, (lead: Object) => CountKey(lead) == key, i);
  }

  /** With every status a text other than "all", or missing, the `all`
      count is the number of leads. */
  lemma AllCountsLeads(leads: seq<Object>)
    requires forall i :: 0 <= i < |leads| ==> StatusIsText(Get(leads[i], "status"))
    requires forall i :: 0 <= i < |leads| ==> Get(leads[i], "status") != Str("all")
    ensures Tally(leads, "all") == 0
  {
    NoneCounted(leads, "all");
  }

  /** A status the store can hold: a text, or nothing. */
  predicate StatusIsText(v: JsValue) {
    v.Str? || v == Null || v == Undefined
  }

  lemma {:induction false} NoneCounted(leads: seq<Object>, key: string)
    requires forall i :: 0 <= i < |leads| ==> CountKey(leads[i]) != key
    ensures Tally(leads, key) == 0
  {
    if |leads| > 0 {
      NoneCounted(leads[1..], key);
    }
  }
}
