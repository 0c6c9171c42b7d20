/** The coercion helpers every controller shares (server/src/utils/helpers.js):
    id parsing, list normalisation, allow-list picking, digit checks, the
    WhatsApp deep link and optional positive integers. */
module Helpers {
  import opened Options
  import opened Sequences
  import opened Text
  import opened JsNumbers
  import opened JsValues

  // -----------------------------------------------------------------------
  // parseId

  /** `parseId(value)`: `Number(value)` when it is finite, `null` otherwise. */
  function ParseId(v: JsValue): (r: JsValue)
    ensures r == Null || (r.Num? && r.n.Finite?)
    ensures r == Null <==> !ToNumber(v).Finite?
    ensures r != Null ==> r.n == ToNumber(v)
  {
    var n := ToNumber(v);
    if n.Finite? then Num(n) else Null
  }

  /** The empty string, blank strings and `null` all parse to the id 0, which
      is falsy, so every `if (!id)` guard after `parseId` rejects them;
      `undefined` and non-numeric text parse to `null`. */
  lemma ParseIdFalsyInputs(s: string)
    requires AllSpace(s)
    ensures ParseId(Str(s)) == Num(FromInt(0)) && !Truthy(ParseId(Str(s)))
    ensures ParseId(Null) == Num(FromInt(0)) && !Truthy(ParseId(Null))
    ensures ParseId(Undefined) == Null
  {
    BlankIsZero(s);
  }

  /** An id printed by `String` parses back to itself. */
  lemma ParseIdOfIntText(i: int)
    ensures ParseId(Str(IntText(i))) == IntValueOf(i)
    ensures Truthy(ParseId(Str(IntText(i)))) <==> i != 0
  {
    IntTextRoundTrip(i);
    ParseIdOfNumberText(IntText(i), FromInt(i));
  }

  lemma ParseIdOfNumberText(s: string, n: JsNum)
    requires StringToNumber(s) == n && n.Finite?
    ensures ParseId(Str(s)) == Num(n)
  {
  }

  // -----------------------------------------------------------------------
  // normalizeArray

  predicate NonEmpty(s: string) {
    |s| > 0
  }

  /** What the comma-separated form of a list holds per element. */
  predicate IsCsvItem(s: string) {
    |s| > 0 && IsTrimmed(s) && ',' !in s
  }

  /** Every element of a list is such an element, stated element by element
      from the front. */
  predicate CsvItems(xs: seq<string>) {
    |xs| == 0 || (IsCsvItem(xs[0]) && CsvItems(xs[1..]))
  }

  lemma {:induction false} CsvItemsAll(xs: seq<string>)
    ensures CsvItems(xs) <==> forall i :: 0 <= i < |xs| ==> IsCsvItem(xs[i])
  {
    if |xs| > 0 {
      CsvItemsAll(xs[1..]);
      assert forall i :: 1 <= i < |xs| ==> xs[i] == xs[1..][i - 1];
    }
  }

  function TrimAll(xs: seq<string>): (r: seq<string>)
    ensures |r| == |xs|
    ensures forall i :: 0 <= i < |xs| ==> r[i] == Trim(xs[i])
  {
    if |xs| == 0 then [] else [Trim(xs[0])] + TrimAll(xs[1..])
  }

  lemma NoCommaAfterTrim(s: string)
    requires ',' !in s
    ensures ',' !in Trim(s)
  {
    if ',' in Trim(s) {
      TrimKeepsChars(s, ',');
    }
  }

  lemma {:induction false} TrimAllOfTrimmed(xs: seq<string>)
    requires forall i :: 0 <= i < |xs| ==> IsTrimmed(xs[i])
    ensures TrimAll(xs) == xs
  {
    forall i | 0 <= i < |xs| ensures Trim(xs[i]) == xs[i] {
      TrimOfTrimmed(xs[i]);
    }
  }

  /** `s.split(",").map(trim).filter(Boolean)`: every piece is non-empty,
      trimmed and free of commas, and the pieces keep their order. */
  function CsvPieces(s: string): (r: seq<string>)
    ensures forall i :: 0 <= i < |r| ==> IsCsvItem(r[i])
    ensures IsSubsequence(r, TrimAll(Split(s, ',')))
  {
    var trimmed := TrimAll(Split(s, ','));
    var r := Filter(trimmed, NonEmpty);
    FilterIsSubsequence(trimmed, NonEmpty);
    forall i | 0 <= i < |r| ensures IsCsvItem(r[i]) {
      assert r[i] in trimmed;
      var j :| 0 <= j < |trimmed| && trimmed[j] == r[i];
      NoCommaAfterTrim(Split(s, ',')[j]);
    }
    r
  }

  /** `normalizeArray(value)`: an array keeps its truthy elements; a string
      that is not blank is split on commas, trimmed and emptied of blank
      pieces; anything else becomes the empty list. */
  function NormalizeArray(v: JsValue): seq<JsValue>
  {
    match v
    case Arr(items) => Filter(items, Truthy)
    case Str(s) => if |Trim(s)| > 0 then Strs(CsvPieces(s)) else []
    case _ => []
  }

  /** On an array, `normalizeArray` keeps exactly its truthy elements, in
      their original order. */
  lemma NormalizeArrayOfArray(items: seq<JsValue>)
    ensures var r := NormalizeArray(Arr(items));
      && IsSubsequence(r, items)
      && (forall i :: 0 <= i < |r| ==> Truthy(r[i]))
      && |r| == Count(items, Truthy)
  {
    FilterIsSubsequence(items, Truthy);
  }

  /** On a string, `normalizeArray` gives trimmed, non-empty, comma-free
      strings in left-to-right order; on anything that is neither an array
      nor a string it gives the empty list. */
  lemma NormalizeArrayOfString(s: string)
    ensures var r := NormalizeArray(Str(s));
      && (forall i :: 0 <= i < |r| ==> r[i].Str? && IsCsvItem(r[i].s))
      && r == Strs(CsvPieces(s))
  {
    if |Trim(s)| == 0 {
      TrimEmptyIffBlank(s);
      BlankHasNoPieces(s);
    }
  }

  lemma NormalizeArrayOfOther(v: JsValue)
    requires !v.Arr? && !v.Str?
    ensures NormalizeArray(v) == []
  {
  }

  lemma {:induction false} SplitChars(s: string, sep: char, i: nat, c: char)
    requires i < |Split(s, sep)| && c in Split(s, sep)[i]
    ensures c in s
  {
    if |s| > 0 {
      var rest := Split(s[1..], sep);
      if s[0] == sep {
        SplitChars(s[1..], sep, i - 1, c);
      } else if i == 0 {
        if c != s[0] {
          assert c in rest[0];
          SplitChars(s[1..], sep, 0, c);
        }
      } else {
        SplitChars(s[1..], sep, i, c);
      }
    }
  }

  lemma {:induction false} FilterNone<T>(s: seq<T>, keep: T -> bool)
    requires forall i :: 0 <= i < |s| ==> !keep(s[i])
    ensures Filter(s, keep) == []
  {
    if |s| > 0 { FilterNone(s[1..], keep); }
  }

  /** A blank string has no non-blank piece, so the `trim()` guard of
      `normalizeArray` and the client's unguarded `parseCsv` agree. */
  lemma BlankHasNoPieces(s: string)
    requires AllSpace(s)
    ensures CsvPieces(s) == []
  {
    var parts := Split(s, ',');
    var trimmed := TrimAll(parts);
    forall i | 0 <= i < |trimmed| ensures !NonEmpty(trimmed[i]) {
      forall k | 0 <= k < |parts[i]| ensures IsSpace(parts[i][k]) {
        SplitChars(s, ',', i, parts[i][k]);
      }
      TrimEmptyIffBlank(parts[i]);
    }
    FilterNone(trimmed, NonEmpty);
  }

  /** Joining well-formed pieces with commas and splitting again gives the
      pieces back. */
  lemma CsvOfJoin(xs: seq<string>)
    requires forall i :: 0 <= i < |xs| ==> IsCsvItem(xs[i])
    ensures CsvPieces(Join(xs, ",")) == xs
  {
    if |xs| == 0 {
      assert Split("", ',') == [""];
      assert TrimAll([""]) == [""];
    } else {
      SplitJoin(xs, ',');
      assert Split(Join(xs, ","), ',') == xs;
      TrimAllOfTrimmed(xs);
      FilterAll(xs, NonEmpty);
    }
  }

  /** The normalisation round trip: normalising a string, joining the result
      with commas and normalising again gives the same list. */
  lemma NormalizeJoinRoundTrip(s: string)
    ensures NormalizeArray(Str(Join(CsvPieces(s), ","))) == NormalizeArray(Str(s))
  {
    var xs := CsvPieces(s);
    NormalizeArrayOfString(s);
    NormalizeArrayOfString(Join(xs, ","));
    CsvOfJoin(xs);
  }

  // -----------------------------------------------------------------------
  // pickFields

  /** `pickFields(source, fields)`: a key is in the result exactly when it is
      allow-listed and the source holds a value other than `undefined` for
      it, and the value is copied unchanged. A `null`/`undefined` source, or
      one that is not an object, gives `{}` (none of the allow-listed column
      names is a property of a string or an array). The allow-list is a set:
      its order only decides the key order of the result, which objects here
      do not keep. */
  function PickFields(source: JsValue, allowed: set<string>): (r: Object)
    ensures forall k :: k in r <==> source.Obj? && k in allowed && Get(source.fields, k) != Undefined
    ensures forall k :: k in r ==> r[k] == Get(source.fields, k)
  {
    match Or(source, Obj(map[]))
    case Obj(m) => map k | k in allowed && Get(m, k) != Undefined :: m[k]
    case _ => map[]
  }

  // -----------------------------------------------------------------------
  // isNumeric, sanitizeNumber

  /** `/^[0-9]+$/.test(String(value))`. */
  predicate IsNumeric(v: JsValue) {
    var t := ToText(v);
    |t| > 0 && AllDigits(t)
  }

  /** A numeric path segment reads as the non-negative integer it spells, so
      looking it up with `Number(segment)` uses exactly that id. */
  lemma NumericReadsAsId(s: string)
    requires IsNumeric(Str(s))
    ensures StringToNumber(s) == FromInt(DigitsValue(s))
  {
    DigitsReadAsInteger(s);
  }

  /** Every printed natural number is numeric. */
  lemma NatTextIsNumeric(n: nat)
    ensures IsNumeric(Str(NatText(n)))
  {
  }

  /** `String(value || "").replace(/\D/g, "")`. */
  function SanitizeNumber(v: JsValue): string
  {
    Filter(ToText(Or(v, Str(""))), IsDigit)
  }

  /** `sanitizeNumber` keeps exactly the ASCII digits of the string form, in
      order. */
  lemma SanitizeKeepsDigits(v: JsValue)
    ensures var t := ToText(Or(v, Str("")));
      var r := SanitizeNumber(v);
      && AllDigits(r) && IsSubsequence(r, t) && |r| == Count(t, IsDigit)
  {
    FilterIsSubsequence(ToText(Or(v, Str(""))), IsDigit);
  }

  /** Sanitising twice is sanitising once. */
  lemma SanitizeIdempotent(v: JsValue)
    ensures SanitizeNumber(Str(SanitizeNumber(v))) == SanitizeNumber(v)
  {
    var r := SanitizeNumber(v);
    FilterAll(r, IsDigit);
  }

  // -----------------------------------------------------------------------
  // buildWhatsappUrl, toNullableArray

  const WaPrefix: string := "https://wa.me/"
  const TextParam: string := "?text="

  /** `buildWhatsappUrl(messageText)` with the configured number passed in
      (`process.env.WHATSAPP_NUMBER`) and `encodeURIComponent` as `encode`:
      no link when the number has no digit, otherwise the wa.me link to the
      digits with the encoded message as its text. */
  function BuildWhatsappUrl(configured: JsValue, messageText: string, encode: string -> string): (r: JsValue)
    ensures r == Null <==> SanitizeNumber(configured) == ""
    ensures r != Null ==> r == Str(WaPrefix + SanitizeNumber(configured) + TextParam + encode(messageText))
  {
    var number := SanitizeNumber(configured);
    if number == "" then Null else Str(WaPrefix + number + TextParam + encode(messageText))
  }

  /** The number segment of the link is the configured number's digits. */
  lemma WhatsappUrlShape(configured: JsValue, messageText: string, encode: string -> string)
    requires BuildWhatsappUrl(configured, messageText, encode) != Null
    ensures var url := BuildWhatsappUrl(configured, messageText, encode).s;
      var digits := url[|WaPrefix|..|url| - |TextParam| - |encode(messageText)|];
      && WaPrefix <= url
      && AllDigits(digits) && |digits| > 0
  {
    SanitizeKeepsDigits(configured);
    var d := SanitizeNumber(configured);
    var url := WaPrefix + d + TextParam + encode(messageText);
    assert url[|WaPrefix|..|url| - |TextParam| - |encode(messageText)|] == d;
  }

  /** `toNullableArray(value)`: arrays unchanged, anything else `[]`. */
  function ToNullableArray(v: JsValue): (r: JsValue)
    ensures r.Arr?
    ensures v.Arr? ==> r == v
    ensures !v.Arr? ==> r == Arr([])
  {
    if v.Arr? then v else Arr([])
  }

  // -----------------------------------------------------------------------
  // parseOptionalInteger

  /** `parseOptionalInteger(value)`: nothing for `undefined`, `null` and
      `""`; otherwise the value when it is an integer of at least 1. */
  function ParseOptionalInteger(v: JsValue): (r: Option<int>)
    ensures v == Undefined || v == Null || v == Str("") ==> r == None
    ensures r.Some? ==> r.value >= 1 && IsInteger(ToNumber(v)) && IntValue(ToNumber(v)) == r.value
    ensures r.None? && v != Undefined && v != Null && v != Str("") ==>
              !IsInteger(ToNumber(v)) || IntValue(ToNumber(v)) <= 0
  {
    if v == Undefined || v == Null || v == Str("") then None
    else
      var n := ToNumber(v);
      if !IsInteger(n) || IntValue(n) <= 0 then None else Some(IntValue(n))
  }

  /** A printed positive integer is accepted as itself, and a printed
      integer below 1 is refused. */
  lemma ParseOptionalIntegerOfText(k: int)
    ensures ParseOptionalInteger(Str(IntText(k))) == if k >= 1 then Some(k) else None
  {
    IntTextRoundTrip(k);
    assert IntText(k) != "";
  }
}
