/** The image upload handler (server/src/controllers/uploadController.js):
    the path-segment sanitiser, the splitting of a `data:` URL, the guards on
    the payload and its decoded size, and the bucket, storage path, file
    extension and content type of the write it asks the storage for.
    Decoding base64, the clock, the random id and the storage itself are
    inputs. */
module Upload {
  import opened Options
  import opened Text
  import opened JsValues
  import opened Store

  /** `8 * 1024 * 1024`. */
  const MaxBytes: nat := 8 * 1024 * 1024

  const ContentRequired: string := "data_url or base64 is required."
  const InvalidBase64: string := "Invalid base64 payload."
  const EmptyFile: string := "Uploaded file is empty."
  const TooLarge: string := "Image too large. Max 8MB."

  // -----------------------------------------------------------------------
  // sanitizeSegment

  /** The class `[a-z0-9/_-]`. */
  predicate SegmentChar(c: char) {
    'a' <= c <= 'z' || '0' <= c <= '9' || c == '/' || c == '_' || c == '-'
  }

  /** The class `[-/]` cut from both ends. */
  predicate IsSeparator(c: char) {
    c == '-' || c == '/'
  }

  predicate NoDoubleDash(s: string) {
    forall i :: 0 <= i < |s| - 1 ==> !(s[i] == '-' && s[i + 1] == '-')
  }

  /** What the sanitiser promises of a non-empty result: only characters of
      the class, no `--`, and no `-` or `/` at either end. */
  predicate Clean(s: string) {
    && (forall i :: 0 <= i < |s| ==> SegmentChar(s[i]))
    && NoDoubleDash(s)
    && (|s| == 0 || (!IsSeparator(s[0]) && !IsSeparator(s[|s| - 1])))
  }

  /** `.replace(/[^a-z0-9/_-]/g, "-")`. */
  function Mask(s: string): (r: string)
    ensures |r| == |s|
    ensures forall i :: 0 <= i < |s| ==> SegmentChar(r[i])
    ensures forall i :: 0 <= i < |s| ==> (r[i] == s[i] <==> SegmentChar(s[i])) && (r[i] != s[i] ==> r[i] == '-')
  {
    seq(|s|, i requires 0 <= i < |s| => if SegmentChar(s[i]) then s[i] else '-')
  }

  /** `.replace(/-{2,}/g, "-")`: every run of dashes becomes one dash. */
  function CollapseDashes(s: string): (r: string)
    ensures |r| <= |s|
    ensures |s| > 0 ==> |r| > 0 && r[0] == s[0]
    ensures NoDoubleDash(r)
    ensures (forall i :: 0 <= i < |s| ==> SegmentChar(s[i])) ==> forall i :: 0 <= i < |r| ==> SegmentChar(r[i])
  {
    if |s| == 0 then []
    else if |s| >= 2 && s[0] == '-' && s[1] == '-' then CollapseDashes(s[1..])
    else [s[0]] + CollapseDashes(s[1..])
  }

  /** `.replace(/^[-/]+/, "")`. */
  function DropLeadingSeparators(s: string): (r: string)
    ensures |r| <= |s|
    ensures |r| == 0 || !IsSeparator(r[0])
  {
    if |s| > 0 && IsSeparator(s[0]) then DropLeadingSeparators(s[1..]) else s
  }

  /** What is left is the end of the string. */
  lemma {:induction false} DropLeadingIsSuffix(s: string)
    ensures DropLeadingSeparators(s) == s[|s| - |DropLeadingSeparators(s)|..]
  {
    if |s| > 0 && IsSeparator(s[0]) {
      DropLeadingIsSuffix(s[1..]);
    }
  }

  /** `.replace(/[-/]+$/, "")`. */
  function DropTrailingSeparators(s: string): (r: string)
    ensures |r| <= |s|
    ensures |r| == 0 || !IsSeparator(r[|r| - 1])
  {
    if |s| > 0 && IsSeparator(s[|s| - 1]) then DropTrailingSeparators(s[..|s| - 1]) else s
  }

  /** What is left is the start of the string. */
  lemma {:induction false} DropTrailingIsPrefix(s: string)
    ensures DropTrailingSeparators(s) == s[..|DropTrailingSeparators(s)|]
  {
    if |s| > 0 && IsSeparator(s[|s| - 1]) {
      DropTrailingIsPrefix(s[..|s| - 1]);
    }
  }

  /** `String(value || "")`. */
  function TextOrEmpty(v: JsValue): string {
    if Truthy(v) then ToText(v) else ""
  }

  /** Only characters of the class and no `--`: what the rewriting steps
      keep before the ends are cut. */
  predicate Tidy(s: string) {
    (forall i :: 0 <= i < |s| ==> SegmentChar(s[i])) && NoDoubleDash(s)
  }

  lemma TidySlice(s: string, a: nat, b: nat)
    requires Tidy(s) && a <= b <= |s|
    ensures Tidy(s[a..b])
  {
    assert forall i :: 0 <= i < b - a ==> s[a..b][i] == s[a + i];
  }

  /** The rewriting of `sanitizeSegment` on the string form of the value,
      before the fallback is applied. */
  function CleanText(s: string): string {
    DropTrailingSeparators(DropLeadingSeparators(CollapseDashes(Mask(ToLower(s)))))
  }

  /** What is left after the rewriting is clean. */
  lemma CleanTextIsClean(s: string)
    ensures Clean(CleanText(s))
  {
    var collapsed := CollapseDashes(Mask(ToLower(s)));
    var trimmed := DropLeadingSeparators(collapsed);
    DropLeadingIsSuffix(collapsed);
    TidySlice(collapsed, |collapsed| - |trimmed|, |collapsed|);
    var r := DropTrailingSeparators(trimmed);
    DropTrailingIsPrefix(trimmed);
    TidySlice(trimmed, 0, |r|);
  }

  /** `sanitizeSegment(value, fallback)`. */
  function Sanitize(value: JsValue, fallback: string): (r: string)
    ensures r == fallback || (|r| > 0 && Clean(r))
    ensures r == fallback <== |CleanText(TextOrEmpty(value))| == 0
  {
    var cleaned := CleanText(TextOrEmpty(value));
    CleanTextIsClean(TextOrEmpty(value));
    if |cleaned| > 0 then cleaned else fallback
  }

  /** The rewriting steps leave a clean string as it is. */
  lemma {:induction false} CollapseKeepsClean(s: string)
    requires NoDoubleDash(s)
    ensures CollapseDashes(s) == s
  {
    if |s| > 0 {
      CollapseKeepsClean(s[1..]);
    }
  }

  lemma LowerKeepsSegment(s: string)
    requires forall i :: 0 <= i < |s| ==> SegmentChar(s[i])
    ensures ToLower(s) == s
  {
  }

  /** The sanitiser on a string is the rewriting of that string. */
  lemma SanitizeText(s: string, fallback: string)
    ensures Sanitize(Str(s), fallback) == if |CleanText(s)| > 0 then CleanText(s) else fallback
  {
    assert TextOrEmpty(Str(s)) == s;
  }

  lemma CleanTextKeepsClean(s: string)
    requires Clean(s)
    ensures CleanText(s) == s
  {
    LowerKeepsSegment(s);
    assert Mask(s) == s;
    CollapseKeepsClean(s);
    assert DropLeadingSeparators(s) == s;
    assert DropTrailingSeparators(s) == s;
  }

  /** A non-empty clean segment comes back unchanged. */
  lemma SanitizeKeepsClean(s: string, fallback: string)
    requires |s| > 0 && Clean(s)
    ensures Sanitize(Str(s), fallback) == s
  {
    CleanTextKeepsClean(s);
    SanitizeText(s, fallback);
  }

  /** Sanitising twice is sanitising once, when the fallback is itself left
      unchanged by the sanitiser. */
  lemma SanitizeIdempotent(value: JsValue, fallback: string)
    requires Sanitize(Str(fallback), fallback) == fallback
    ensures Sanitize(Str(Sanitize(value, fallback)), fallback) == Sanitize(value, fallback)
  {
    var r := Sanitize(value, fallback);
    if r != fallback {
      SanitizeKeepsClean(r, fallback);
    }
  }

  /** Other characters become dashes. */
  lemma SanitizeMasks()
    ensures Sanitize(Str("a b"), "general") == "a-b"
  {
    LowerKeepsSpaced();
    assert Mask("a b") == "a-b";
    CollapseKeepsClean("a-b");
    assert CleanText("a b") == "a-b";
    SanitizeText("a b", "general");
  }

  lemma LowerKeepsSpaced()
    ensures ToLower("a b") == "a b"
  {
  }

  /** Runs of dashes shrink to one and separators at the ends go. */
  lemma SanitizeCollapses()
    ensures Sanitize(Str("-a--b/"), "general") == "a-b"
  {
    var s := "-a--b/";
    assert forall i :: 0 <= i < |s| ==> SegmentChar(s[i]);
    LowerKeepsSegment(s);
    assert Mask(s) == s;
    CollapseRun();
    DropSeparatorsAtEnds();
    assert CleanText(s) == "a-b";
    SanitizeText(s, "general");
  }

  lemma CollapseRun()
    ensures CollapseDashes("-a--b/") == "-a-b/"
  {
    CollapseKeepsClean("-b/");
    assert "--b/"[1..] == "-b/";
    assert CollapseDashes("--b/") == "-b/";
    assert "a--b/"[1..] == "--b/";
    assert CollapseDashes("a--b/") == "a-b/";
    assert "-a--b/"[1..] == "a--b/";
  }

  lemma DropSeparatorsAtEnds()
    ensures DropTrailingSeparators(DropLeadingSeparators("-a-b/")) == "a-b"
  {
    assert DropLeadingSeparators("-a-b/") == "a-b/";
    assert DropTrailingSeparators("a-b/") == "a-b";
  }

  /** A missing or falsy value gives the fallback. */
  lemma SanitizeFallsBack(value: JsValue, fallback: string)
    requires !Truthy(value)
    ensures Sanitize(value, fallback) == fallback
  {
  }

  // -----------------------------------------------------------------------
  // parseDataUrl

  /** The two groups of `^data:([^;]+);base64,(.+)$`. */
  datatype DataUrl = DataUrl(contentType: string, base64: string)

  /** The characters `.` does not match. */
  predicate IsLineTerminator(c: char) {
    c == '\n' || c == '\r' || c == '\U{2028}' || c == '\U{2029}'
  }

  /** The shape of the two groups: a non-empty media type without `;` and a
      non-empty payload on one line. */
  predicate WellFormed(d: DataUrl) {
    && |d.contentType| > 0 && (forall i :: 0 <= i < |d.contentType| ==> d.contentType[i] != ';')
    && |d.base64| > 0 && (forall i :: 0 <= i < |d.base64| ==> !IsLineTerminator(d.base64[i]))
  }

  /** The data URL the groups come from. */
  function Compose(d: DataUrl): string {
    "data:" + d.contentType + ";base64," + d.base64
  }

  /** The position of the first `;`, or the length when there is none. */
  function FirstSemicolon(s: string): (i: nat)
    ensures i <= |s|
    ensures forall k :: 0 <= k < i ==> s[k] != ';'
    ensures i < |s| ==> s[i] == ';'
  {
    if |s| == 0 || s[0] == ';' then 0 else 1 + FirstSemicolon(s[1..])
  }

  /** `parseDataUrl`, on the string form of the field: the groups exactly
      when the string is a well-formed data URL, else nothing. */
  function ParseDataUrl(s: string): (r: Option<DataUrl>)
    ensures r.Some? ==> WellFormed(r.value) && s == Compose(r.value)
  {
    if |s| < 5 || s[..5] != "data:" then None
    else
      var rest := s[5..];
      var i := FirstSemicolon(rest);
      if i == 0 || |rest| - i < 8 || rest[i..i + 8] != ";base64," then None
      else
        var b := rest[i + 8..];
        if |b| == 0 || exists k :: 0 <= k < |b| && IsLineTerminator(b[k]) then None
        else
          DataUrlParts(s, i);
          Some(DataUrl(rest[..i], b))
  }

  /** A string that starts with `data:` and has `;base64,` at `i` after
      it is put together from the parts around them. */
  lemma DataUrlParts(s: string, i: nat)
    requires |s| >= 5 && s[..5] == "data:"
    requires i + 8 <= |s| - 5 && s[5..][i..i + 8] == ";base64,"
    ensures s == "data:" + s[5..][..i] + ";base64," + s[5..][i + 8..]
  {
    var rest := s[5..];
    assert s == s[..5] + rest;
    assert rest == rest[..i] + rest[i..i + 8] + rest[i + 8..];
  }

  /** Splitting a well-formed data URL gives back its groups; with the
      ensures of `ParseDataUrl`, a string parses exactly when it is such a
      URL. */
  lemma DataUrlRoundTrip(d: DataUrl)
    requires WellFormed(d)
    ensures ParseDataUrl(Compose(d)) == Some(d)
  {
    var c := d.contentType;
    ComposeRest(d);
    RestSlices(c, d.base64);
    FirstSemicolonAfter(c, ";base64," + d.base64);
    assert c + ";base64," + d.base64 == c + (";base64," + d.base64);
  }

  lemma ComposeRest(d: DataUrl)
    ensures |Compose(d)| >= 5 && Compose(d)[..5] == "data:"
    ensures Compose(d)[5..] == d.contentType + ";base64," + d.base64
  {
  }

  lemma RestSlices(c: string, b: string)
    ensures var rest := c + ";base64," + b;
      rest[|c|..|c| + 8] == ";base64," && rest[|c| + 8..] == b && rest[..|c|] == c
  {
  }

  lemma {:induction false} FirstSemicolonAfter(a: string, t: string)
    requires forall i :: 0 <= i < |a| ==> a[i] != ';'
    requires |t| > 0 && t[0] == ';'
    ensures FirstSemicolon(a + t) == |a|
  {
    if |a| > 0 {
      assert (a + t)[1..] == a[1..] + t;
      FirstSemicolonAfter(a[1..], t);
    } else {
      assert a + t == t;
    }
  }

  /** An empty media type or an empty payload is no data URL. */
  lemma DataUrlRejects()
    ensures ParseDataUrl("data:;base64,A") == None
    ensures ParseDataUrl("data:x;base64,") == None
  {
    assert FirstSemicolon(";base64,A") == 0;
    assert FirstSemicolon("x;base64,") == 1;
  }

  // -----------------------------------------------------------------------
  // The payload

  /** The payload and its content type, as the handler settles them. */
  datatype Content = Content(base64: JsValue, contentType: JsValue)

  /** `finalBase64` and `inferredContentType`: a parseable `data_url`
      overrides both fields; a missing or unparseable one leaves them. */
  function ContentOf(body: Object): (c: Content)
    ensures var parsed := if Truthy(Get(body, "data_url")) then ParseDataUrl(ToText(Get(body, "data_url"))) else None;
      && (parsed.Some? ==> c == Content(Str(parsed.value.base64), Str(parsed.value.contentType)))
      && (parsed.None? ==> c == Content(Get(body, "base64"), Get(body, "content_type")))
  {
    var dataUrl := Get(body, "data_url");
    var parsed := if Truthy(dataUrl) then ParseDataUrl(ToText(dataUrl)) else None;
    if parsed.Some? then Content(Str(parsed.value.base64), Str(parsed.value.contentType))
    else Content(Get(body, "base64"), Get(body, "content_type"))
  }

  // -----------------------------------------------------------------------
  // The file extension

  function DropTrailingSlashes(s: string): (r: string)
    ensures |r| <= |s|
    ensures |r| == 0 || r[|r| - 1] != '/'
  {
    if |s| > 0 && s[|s| - 1] == '/' then DropTrailingSlashes(s[..|s| - 1]) else s
  }

  /** The part after the last `/`. */
  function LastSegment(s: string): (r: string)
    ensures |r| <= |s|
    ensures forall i :: 0 <= i < |r| ==> r[i] != '/'
  {
    if |s| == 0 || s[|s| - 1] == '/' then ""
    else LastSegment(s[..|s| - 1]) + [s[|s| - 1]]
  }

  /** The position of the last `.`, if any. */
  function LastDot(s: string): (r: Option<nat>)
    ensures r.Some? ==> r.value < |s| && s[r.value] == '.' && forall k :: r.value < k < |s| ==> s[k] != '.'
    ensures r.None? ==> forall k :: 0 <= k < |s| ==> s[k] != '.'
  {
    if |s| == 0 then None
    else if s[|s| - 1] == '.' then Some(|s| - 1)
    else LastDot(s[..|s| - 1])
  }

  /** `path.extname` on POSIX paths: from the last `.` of the last segment
      (trailing slashes ignored) to its end, or nothing when the segment has
      no `.`, starts with its only dot run's last dot, or is `..`. */
  function Extname(path: string): (r: string)
    ensures r == "" || (r[0] == '.' && forall i :: 1 <= i < |r| ==> r[i] != '.' && r[i] != '/')
  {
    var part := LastSegment(DropTrailingSlashes(path));
    var dot := LastDot(part);
    if dot.None? || dot.value == 0 || part == ".." then "" else part[dot.value..]
  }

  /** `path.extname(String(file_name || "")).replace(".", "").toLowerCase()`. */
  function FileExtension(fileName: JsValue): (r: string)
    ensures forall i :: 0 <= i < |r| ==> r[i] != '.' && r[i] != '/'
  {
    var ext := Extname(TextOrEmpty(fileName));
    if ext == "" then "" else ToLower(ext[1..])
  }

  /** `mimeToExtension[key] || ""`. */
  function MimeExtension(key: string): string {
    if key == "image/jpeg" || key == "image/jpg" then "jpg"
    else if key == "image/png" then "png"
    else if key == "image/webp" then "webp"
    else if key == "image/gif" then "gif"
    else ""
  }

  /** `originalExt || mappedExt || "jpg"`. */
  function ChooseExtension(fileName: JsValue, contentType: JsValue): (ext: string)
    ensures ext != ""
    ensures FileExtension(fileName) != "" ==> ext == FileExtension(fileName)
    ensures FileExtension(fileName) == "" ==> ext == Or(Str(MimeExtension(ToText(contentType))), Str("jpg")).s
  {
    var original := FileExtension(fileName);
    var mapped := MimeExtension(ToText(contentType));
    if original != "" then original else if mapped != "" then mapped else "jpg"
  }

  lemma {:induction false} LastSegmentWhole(s: string)
    requires forall i :: 0 <= i < |s| ==> s[i] != '/'
    ensures LastSegment(s) == s
  {
    if |s| > 0 {
      LastSegmentWhole(s[..|s| - 1]);
      assert s[..|s| - 1] + [s[|s| - 1]] == s;
    }
  }

  lemma LastDotIs(s: string, k: nat)
    requires k < |s| && s[k] == '.' && forall j :: k < j < |s| ==> s[j] != '.'
    ensures LastDot(s) == Some(k)
  {
  }

  /** With no slash at the end, the last segment of a slash-free name is
      the whole name, and its extension runs from its last dot. */
  lemma ExtnameAt(name: string, k: nat)
    requires |name| > 0 && name[|name| - 1] != '/'
    requires forall i :: 0 <= i < |name| ==> name[i] != '/'
    requires k < |name| && name[k] == '.' && forall j :: k < j < |name| ==> name[j] != '.'
    ensures Extname(name) == if k == 0 || name == ".." then "" else name[k..]
  {
    LastSegmentWhole(name);
    LastDotIs(name, k);
    ExtnameOf(name, k);
  }

  lemma ExtnameOf(name: string, k: nat)
    requires LastSegment(DropTrailingSlashes(name)) == name && LastDot(name) == Some(k)
    ensures Extname(name) == if k == 0 || name == ".." then "" else name[k..]
  {
  }

  /** A name `stem.ext` with no `/` and a stem that is neither empty nor a
      lone dot before an empty extension has the extension `.ext`. */
  lemma ExtnameOfName(stem: string, ext: string)
    requires |stem| > 0 && (forall i :: 0 <= i < |stem| ==> stem[i] != '/')
    requires forall i :: 0 <= i < |ext| ==> ext[i] != '/' && ext[i] != '.'
    requires !(stem == "." && ext == "")
    ensures Extname(stem + "." + ext) == "." + ext
  {
    var name := stem + "." + ext;
    assert name[|stem|] == '.';
    assert forall k :: |stem| < k < |name| ==> name[k] == ext[k - |stem| - 1];
    assert forall k :: 0 <= k < |stem| ==> name[k] == stem[k];
    assert name[|name| - 1] != '/';
    ExtnameAt(name, |stem|);
    assert name[|stem|..] == "." + ext;
  }

  /** A dot file `.ext` has no extension. */
  lemma ExtnameOfDotFile(ext: string)
    requires forall i :: 0 <= i < |ext| ==> ext[i] != '/' && ext[i] != '.'
    ensures Extname("." + ext) == ""
  {
    var name := "." + ext;
    assert name[0] == '.';
    assert forall k :: 0 < k < |name| ==> name[k] == ext[k - 1];
    assert name[|name| - 1] != '/';
    ExtnameAt(name, 0);
  }

  lemma FileExtensionOfText(name: string)
    requires |name| > 0
    ensures FileExtension(Str(name)) == if Extname(name) == "" then "" else ToLower(Extname(name)[1..])
  {
  }

  /** The file name's own extension wins, lowered; a dot file defers to the
      content type. */
  lemma ExtensionFromName(stem: string, ext: string, contentType: JsValue)
    requires |stem| > 0 && (forall i :: 0 <= i < |stem| ==> stem[i] != '/')
    requires |ext| > 0 && forall i :: 0 <= i < |ext| ==> ext[i] != '/' && ext[i] != '.'
    ensures ChooseExtension(Str(stem + "." + ext), contentType) == ToLower(ext)
    ensures ChooseExtension(Str("." + ext), contentType) == Or(Str(MimeExtension(ToText(contentType))), Str("jpg")).s
  {
    ExtnameOfName(stem, ext);
    FileExtensionOfText(stem + "." + ext);
    assert ("." + ext)[1..] == ext;
    ExtnameOfDotFile(ext);
    FileExtensionOfText("." + ext);
  }

  // -----------------------------------------------------------------------
  // uploadImage

  /** What the handler decides before it writes: a refusal, or the write it
      asks the storage for. */
  datatype Plan =
    | Refuse(response: Response)
    | Write(bucket: string, path: string, contentType: string)

  /** `process.env.SUPABASE_STORAGE_BUCKET || "agency-images"`. */
  function DefaultBucket(env: Option<string>): (r: string)
    ensures r != ""
  {
    if env.Some? && env.value != "" then env.value else "agency-images"
  }

  /** A destructured field with a default: the default replaces only an
      absent field. */
  function WithDefault(v: JsValue, default: string): JsValue {
    if v == Undefined then Str(default) else v
  }

  /** The guards and the write of `uploadImage`. `decodedLength` is the
      length of `Buffer.from(payload, "base64")`, `None` when it throws;
      `stamp` is the `${Date.now()}-${randomId}` part of the file name. */
  function UploadPlan(body: Object, decodedLength: JsValue -> Option<nat>, defaultBucket: string, stamp: string): Plan
  {
    var content := ContentOf(body);
    if !Truthy(content.base64) then Refuse(ErrorResponse(400, ContentRequired))
    else
      var size := decodedLength(content.base64);
      if size.None? then Refuse(ErrorResponse(400, InvalidBase64))
      else if size.value == 0 then Refuse(ErrorResponse(400, EmptyFile))
      else if size.value > MaxBytes then Refuse(ErrorResponse(413, TooLarge))
      else WriteOf(body, defaultBucket, stamp)
  }

  /** The write an accepted payload leads to. */
  function WriteOf(body: Object, defaultBucket: string, stamp: string): (plan: Plan)
    ensures plan.Write?
  {
    var folder := Sanitize(WithDefault(Get(body, "folder"), "general"), "general");
    var bucket := Sanitize(WithDefault(Get(body, "bucket"), defaultBucket), defaultBucket);
    var contentType := ContentOf(body).contentType;
    var extension := ChooseExtension(Get(body, "file_name"), contentType);
    Write(bucket, folder + "/" + stamp + "." + extension,
          if Truthy(contentType) then ToText(contentType) else "image/" + extension)
  }

  /** `uploadImage`: the refusal, the storage's error as a 500, or a 201
      with the bucket, the path and the public URL or null. */
  function UploadImage(
    body: Object, decodedLength: JsValue -> Option<nat>, defaultBucket: string, stamp: string,
    uploadError: Option<string>, publicUrl: JsValue): (r: Response)
    ensures UploadPlan(body, decodedLength, defaultBucket, stamp).Refuse? ==>
              r == UploadPlan(body, decodedLength, defaultBucket, stamp).response
    ensures UploadPlan(body, decodedLength, defaultBucket, stamp).Write? ==>
              (r.status == 201 <==> uploadError.None?)
              && (uploadError.Some? ==> r == ErrorResponse(500, uploadError.value))
  {
    match UploadPlan(body, decodedLength, defaultBucket, stamp)
    case Refuse(response) => response
    case Write(bucket, path, _) =>
      if uploadError.Some? then ErrorResponse(500, uploadError.value)
      else DataResponse(201, Obj(map["bucket" := Str(bucket), "path" := Str(path), "public_url" := Or(publicUrl, Null)]))
  }

  // -----------------------------------------------------------------------
  // Properties of the guards and the write

  /** The guards in order: no payload, an undecodable one, an empty one and
      one over 8 MiB are refused with their own status and message; exactly
      8 MiB is written. */
  lemma UploadGuards(body: Object, decodedLength: JsValue -> Option<nat>, defaultBucket: string, stamp: string)
    ensures var c := ContentOf(body);
      var plan := UploadPlan(body, decodedLength, defaultBucket, stamp);
      && (!Truthy(c.base64) ==> plan == Refuse(ErrorResponse(400, ContentRequired)))
      && (Truthy(c.base64) && decodedLength(c.base64).None? ==> plan == Refuse(ErrorResponse(400, InvalidBase64)))
      && (Truthy(c.base64) && decodedLength(c.base64) == Some(0) ==> plan == Refuse(ErrorResponse(400, EmptyFile)))
      && (Truthy(c.base64) && decodedLength(c.base64).Some? && decodedLength(c.base64).value > MaxBytes ==>
            plan == Refuse(ErrorResponse(413, TooLarge)))
      && (Truthy(c.base64) && decodedLength(c.base64).Some? && 0 < decodedLength(c.base64).value <= MaxBytes <==>
            plan.Write?)
      && (plan.Write? ==> plan == WriteOf(body, defaultBucket, stamp))
  {
  }

  /** The boundary: 8388608 bytes are accepted, one more is refused. */
  lemma SizeBoundary(body: Object, decodedLength: JsValue -> Option<nat>, defaultBucket: string, stamp: string)
    requires Truthy(ContentOf(body).base64)
    ensures decodedLength(ContentOf(body).base64) == Some(8388608) ==>
              UploadPlan(body, decodedLength, defaultBucket, stamp).Write?
    ensures decodedLength(ContentOf(body).base64) == Some(8388609) ==>
              UploadPlan(body, decodedLength, defaultBucket, stamp).response.status == 413
  {
  }

  /** An accepted upload goes to the sanitised bucket, under a path made of
      the sanitised folder (clean and never empty), the stamp and the chosen
      extension, with the inferred content type or `image/<extension>`. */
  lemma WriteShape(body: Object, defaultBucket: string, stamp: string)
    ensures var plan := WriteOf(body, defaultBucket, stamp);
      var c := ContentOf(body);
      var folder := Sanitize(WithDefault(Get(body, "folder"), "general"), "general");
      var extension := ChooseExtension(Get(body, "file_name"), c.contentType);
      && plan.bucket == Sanitize(WithDefault(Get(body, "bucket"), defaultBucket), defaultBucket)
      && plan.path == folder + "/" + stamp + "." + extension
      && |folder| > 0 && Clean(folder)
      && (Truthy(c.contentType) ==> plan.contentType == ToText(c.contentType))
      && (!Truthy(c.contentType) ==> plan.contentType == "image/" + extension)
  {
    GeneralIsClean();
  }

  lemma GeneralIsClean()
    ensures Clean("general")
  {
  }

  /** A data URL decides the payload and the type: its media type picks the
      extension when the file name has none. */
  lemma DataUrlDecides(body: Object, d: DataUrl)
    requires WellFormed(d) && Get(body, "data_url") == Str(Compose(d))
    ensures ContentOf(body) == Content(Str(d.base64), Str(d.contentType))
    ensures FileExtension(Get(body, "file_name")) == "" && MimeExtension(d.contentType) != "" ==>
              ChooseExtension(Get(body, "file_name"), ContentOf(body).contentType) == MimeExtension(d.contentType)
  {
    DataUrlRoundTrip(d);
  }
}
