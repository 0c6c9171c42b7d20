/** What the admin package and hotel pages share
    (client/src/pages/admin/AdminPackagesPage.jsx and
    client/src/pages/admin/AdminHotelsPage.jsx each define `parseCsv`
    identically): reading a comma-separated input into a list, writing a
    stored list back into such an input, and the numeric inputs. */
module AdminForms {
  import opened Options
  import opened Text
  import opened JsNumbers
  import opened JsValues
  import opened Sequences
  import opened Helpers

  /** `parseCsv(value)`: `String(value || "")` split on commas, each piece
      trimmed, the empty pieces dropped. */
  function ParseCsv(value: JsValue): (r: seq<string>)
    ensures forall i :: 0 <= i < |r| ==> IsCsvItem(r[i])
    ensures !Truthy(value) ==> r == []
  {
    if !Truthy(value) then
      assert Split("", ',') == [""];
      assert TrimAll([""]) == [""];
      []
    else CsvPieces(ToText(value))
  }

  /** How `Array.prototype.join` prints an element: `null` and `undefined`
      as nothing. */
  function ElementText(v: JsValue): string {
    if v.Null? || v.Undefined? then "" else ToText(v)
  }

  /** `items.join(sep)`. */
  function JoinValues(items: seq<JsValue>, sep: string): string {
    Join(seq(|items|, i requires 0 <= i < |items| => ElementText(items[i])), sep)
  }

  /** `(v || []).join(", ")`, the text an edit writes into a list input;
      `None` when `v` is truthy but not an array, where the page throws. */
  function EditListText(v: JsValue): Option<string> {
    if !Truthy(v) then Some("")
    else if v.Arr? then Some(JoinValues(v.items, ", "))
    else None
  }

  /** `v ? String(v) : ""`, the text an edit writes into a numeric input. */
  function EditNumberText(v: JsValue): string {
    if Truthy(v) then ToText(v) else ""
  }

  /** `v || ""`, the value an edit writes into a text input. */
  function EditText(v: JsValue): JsValue {
    Or(v, Str(""))
  }

  /** `message || fallback`: the error shown when an API call fails. */
  function MessageOr(message: string, fallback: string): (r: string)
    ensures message != "" ==> r == message
    ensures fallback != "" ==> r != ""
  {
    if message != "" then message else fallback
  }

  /** The API call a submit makes: a create, or an update of the row being
      edited, with the body built from the form. */
  datatype Call = Create(payload: Object) | Update(id: JsValue, payload: Object)

  // -----------------------------------------------------------------------
  // The edit round trip

  /** The pieces of a `", "`-join as a `","`-join sees them. */
  function Spaced(xs: seq<string>): (r: seq<string>)
    requires |xs| >= 1
    ensures |r| == |xs| && r[0] == xs[0]
    ensures forall i :: 1 <= i < |xs| ==> r[i] == " " + xs[i]
  {
    [xs[0]] + seq(|xs| - 1, i requires 0 <= i < |xs| - 1 => " " + xs[i + 1])
  }

  lemma {:induction false} JoinSpaced(xs: seq<string>)
    requires |xs| >= 1
    ensures Join(xs, ", ") == Join(Spaced(xs), ",")
  {
    if |xs| > 1 {
      JoinSpaced(xs[1..]);
      var tail := Spaced(xs[1..]);
      var r := Spaced(xs);
      assert r[1..] == [" " + tail[0]] + tail[1..];
      JoinHead(" ", tail, ",");
    }
  }

  /** Putting `p` in front of the first piece of a join puts it in front of
      the join. */
  lemma JoinHead(p: string, parts: seq<string>, sep: string)
    requires |parts| >= 1
    ensures Join([p + parts[0]] + parts[1..], sep) == p + Join(parts, sep)
  {
    var q := [p + parts[0]] + parts[1..];
    assert q[1..] == parts[1..];
  }

  /** A trimmed, non-empty piece with a space in front trims back to itself. */
  lemma TrimSpaced(x: string)
    requires |x| > 0 && IsTrimmed(x)
    ensures Trim(" " + x) == x
  {
    DropOne(" ", x);
    assert TrimStart(" " + x) == TrimStart(x) == x;
    TrimOfTrimmed(x);
  }

  /** Splitting a `", "`-join on commas gives the pieces, each after the
      first with its space in front. */
  lemma SplitSpacedJoin(xs: seq<string>)
    requires |xs| >= 1
    requires forall i :: 0 <= i < |xs| ==> ',' !in xs[i]
    ensures Split(Join(xs, ", "), ',') == Spaced(xs)
  {
    var ys := Spaced(xs);
    JoinSpaced(xs);
    forall i | 0 <= i < |ys|
      ensures ',' !in ys[i]
    {
      if i > 0 {
        assert ys[i] == " " + xs[i];
      }
    }
    SplitJoin(ys, ',');
  }

  /** Trimming the spaced pieces gives the pieces back. */
  lemma TrimAllSpaced(xs: seq<string>)
    requires |xs| >= 1
    requires forall i :: 0 <= i < |xs| ==> IsCsvItem(xs[i])
    ensures TrimAll(Spaced(xs)) == xs
  {
    var ys := Spaced(xs);
    forall i | 0 <= i < |xs|
      ensures Trim(ys[i]) == xs[i]
    {
      if i == 0 {
        TrimOfTrimmed(xs[0]);
      } else {
        TrimSpaced(xs[i]);
      }
    }
  }

  /** Writing a list into an input joined with `", "` and parsing the input
      again gives the list back, provided every element is non-empty, has
      no white space at its ends and no comma. */
  lemma ParseCsvOfJoin(xs: seq<string>)
    requires forall i :: 0 <= i < |xs| ==> IsCsvItem(xs[i])
    ensures ParseCsv(Str(Join(xs, ", "))) == xs
  {
    if |xs| > 0 {
      JoinFirst(xs, ", ");
      CsvPiecesOfJoin(xs);
    }
  }

  lemma CsvPiecesOfJoin(xs: seq<string>)
    requires |xs| >= 1
    requires forall i :: 0 <= i < |xs| ==> IsCsvItem(xs[i])
    ensures CsvPieces(Join(xs, ", ")) == xs
  {
    SplitSpacedJoin(xs);
    TrimAllSpaced(xs);
    FilterAll(xs, NonEmpty);
  }

  /** A join is at least as long as its first piece. */
  lemma JoinFirst(parts: seq<string>, sep: string)
    requires |parts| >= 1
    ensures |Join(parts, sep)| >= |parts[0]|
  {
  }

  /** The strings of a list print as themselves when joined. */
  lemma JoinStrs(xs: seq<string>, sep: string)
    ensures JoinValues(Strs(xs), sep) == Join(xs, sep)
  {
    var items := Strs(xs);
    assert seq(|items|, i requires 0 <= i < |items| => ElementText(items[i])) == xs;
  }

  /** A stored list of such strings survives an edit and an unchanged
      submit. */
  lemma ListRoundTrip(xs: seq<string>)
    requires forall i :: 0 <= i < |xs| ==> IsCsvItem(xs[i])
    ensures EditListText(Arr(Strs(xs))) == Some(Join(xs, ", "))
    ensures Strs(ParseCsv(Str(Join(xs, ", ")))) == Strs(xs)
  {
    JoinStrs(xs, ", ");
    ParseCsvOfJoin(xs);
  }

  // -----------------------------------------------------------------------
  // Numeric inputs

  /** An integer column survives an edit and an unchanged submit, except 0,
      which the edit writes as an empty input and the submit sends as null. */
  lemma NumberRoundTrip(n: int)
    ensures NumberOrNull(Str(EditNumberText(IntValueOf(n)))) == if n == 0 then Null else IntValueOf(n)
  {
    NumberTextOfInt(n);
    IntTextRoundTrip(n);
  }

  /** A number column as the store keeps it: null or a non-zero integer. */
  predicate StoredNumber(v: JsValue) {
    v == Null || (v.Num? && v.n.Finite? && v.n.e == 0 && v.n.m != 0)
  }

  /** A number column as the store keeps it reads back from the text an
      edit writes for it. */
  lemma StoredNumberReadsBack(v: JsValue)
    requires StoredNumber(v)
    ensures NumberOrNull(Str(EditNumberText(v))) == v
  {
    if v.Num? {
      NumberRoundTrip(v.n.m);
    }
  }

  /** A missing column is edited as an empty input and sent as null. */
  lemma MissingNumberRoundTrip(v: JsValue)
    requires v == Null || v == Undefined
    ensures NumberOrNull(Str(EditNumberText(v))) == Null
  {
  }

  // -----------------------------------------------------------------------
  // Hotel ids

  /** `pieces.map((i) => Number(i))`. */
  function NumbersOf(pieces: seq<string>): (r: seq<JsValue>)
    ensures |r| == |pieces|
    ensures forall i :: 0 <= i < |pieces| ==> r[i] == Num(StringToNumber(pieces[i]))
  {
    seq(|pieces|, i requires 0 <= i < |pieces| => Num(StringToNumber(pieces[i])))
  }

  /** `parseCsv(value).map((i) => Number(i)).filter(Boolean)`. */
  function IdList(value: JsValue): seq<JsValue> {
    Filter(NumbersOf(ParseCsv(value)), Truthy)
  }

  /** The ids keep the order of the input, and an id is kept exactly when
      its piece reads as a number other than 0 and NaN. */
  lemma IdListKeeps(value: JsValue, x: JsValue)
    ensures IsSubsequence(IdList(value), NumbersOf(ParseCsv(value)))
    ensures x in IdList(value) <==> x in NumbersOf(ParseCsv(value)) && x.Num? && IsTruthyNumber(x.n)
  {
    var numbers := NumbersOf(ParseCsv(value));
    FilterIsSubsequence(numbers, Truthy);
    FilterMembers(numbers, Truthy, x);
  }

  /** The decimal spelling of a positive id is a well-formed list element. */
  lemma NatTextIsItem(n: nat)
    ensures IsCsvItem(NatText(n))
  {
    var s := NatText(n);
    assert !IsSpace(s[0]) && !IsSpace(s[|s| - 1]) by {
      assert IsDigit(s[0]) && IsDigit(s[|s| - 1]);
    }
  }

  /** The ids as an edit writes them: `ids.join(", ")`. */
  function IdsText(ids: seq<nat>): string {
    Join(seq(|ids|, i requires 0 <= i < |ids| => NatText(ids[i])), ", ")
  }

  /** Positive ids written into the input and submitted unchanged come back
      as the same numbers, in the same order. */
  lemma IdsRoundTrip(ids: seq<nat>)
    requires forall i :: 0 <= i < |ids| ==> ids[i] > 0
    ensures IdList(Str(IdsText(ids))) == seq(|ids|, i requires 0 <= i < |ids| => IntValueOf(ids[i]))
  {
    var texts := seq(|ids|, i requires 0 <= i < |ids| => NatText(ids[i]));
    forall i | 0 <= i < |texts|
      ensures IsCsvItem(texts[i])
    {
      NatTextIsItem(ids[i]);
    }
    ParseCsvOfJoin(texts);
    var numbers := NumbersOf(texts);
    forall i | 0 <= i < |ids|
      ensures numbers[i] == IntValueOf(ids[i])
    {
      DigitsReadAsInteger(texts[i]);
      DigitsValueOfNatText(ids[i]);
    }
    FilterAll(numbers, Truthy);
  }

  /** The edit prints the ids of stored rows as their decimal spellings. */
  lemma IdsPrintAsText(ids: seq<nat>)
    ensures JoinValues(seq(|ids|, i requires 0 <= i < |ids| => IntValueOf(ids[i])), ", ") == IdsText(ids)
  {
    var items := seq(|ids|, i requires 0 <= i < |ids| => IntValueOf(ids[i]));
    forall i | 0 <= i < |ids|
      ensures ElementText(items[i]) == NatText(ids[i])
    {
      NumberTextOfInt(ids[i]);
    }
    assert seq(|items|, i requires 0 <= i < |items| => ElementText(items[i]))
        == seq(|ids|, i requires 0 <= i < |ids| => NatText(ids[i]));
  }
}
