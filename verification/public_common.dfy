/** The pieces the public read handlers share: the store's answers taken as
    inputs, `[...new Set(ids)]`, the id-keyed lookup object built by
    `reduce`, the per-package hotel lists built by `reduce`, and the
    `a?.message || b?.message` error of two parallel lookups. */
module ReadAssembly {
  import opened Options
  import opened JsValues
  import opened Helpers
  import opened Store

  /** What one store query answers: `{ data, error }`, with the rows it
      returns (a `null` data reads as no rows). */
  datatype Reply<R> = Reply(rows: seq<R>, error: Option<string>)

  /** The answer `Promise.resolve({ data: [], error: null })` stands in for
      a lookup that is skipped. */
  function Skipped<R>(): Reply<R> {
    Reply([], None)
  }

  /** A row of `select("package_id, hotels(*)")`: the join row's package id
      and the embedded hotel row, or `None` for a `null` embed. */
  datatype JoinRow = JoinRow(packageId: JsValue, hotel: Option<Object>)

  /** JavaScript turns a property key into its string form. */
  function Key(v: JsValue): string {
    ToText(v)
  }

  /** `obj[key]` on a lookup object built by the handlers. */
  function Lookup<V>(m: map<string, V>, key: string, absent: V): V {
    if key in m then m[key] else absent
  }

  // -----------------------------------------------------------------------
  // [...new Set(xs)]

  /** The distinct values of `xs` in order of first occurrence. */
  function Dedup(xs: seq<JsValue>): (r: seq<JsValue>)
    ensures forall x :: x in r <==> x in xs
    ensures forall i, j :: 0 <= i < j < |r| ==> r[i] != r[j]
    ensures |r| <= |xs|
  {
    if |xs| == 0 then []
    else
      var rest := Dedup(xs[..|xs| - 1]);
      var x := xs[|xs| - 1];
      assert forall y :: y in xs <==> y in xs[..|xs| - 1] || y == x by {
        assert xs == xs[..|xs| - 1] + [x];
      }
      if x in rest then rest else rest + [x]
  }

  /** A de-duplicated id list is empty exactly when the rows are, which is
      when the handlers skip the lookup. */
  lemma DedupEmpty(xs: seq<JsValue>)
    ensures |Dedup(xs)| == 0 <==> |xs| == 0
  {
    if |xs| > 0 {
      assert xs[0] in xs;
    }
  }

  /** The value of one column in every row, in row order. */
  function Column(rows: seq<Object>, k: string): (r: seq<JsValue>)
    ensures |r| == |rows|
    ensures forall i :: 0 <= i < |rows| ==> r[i] == Get(rows[i], k)
  {
    seq(|rows|, i requires 0 <= i < |rows| => Get(rows[i], k))
  }

  // -----------------------------------------------------------------------
  // destinationMap: rows.reduce((acc, item) => { acc[item.id] = item; ... }, {})

  /** The lookup object keyed by the string form of each row's id; a later
      row with the same key overwrites an earlier one. */
  function IndexById(rows: seq<Object>): map<string, Object>
  {
    if |rows| == 0 then map[]
    else
      var last := rows[|rows| - 1];
      IndexById(rows[..|rows| - 1])[Key(Get(last, "id")) := last]
  }

  /** The last row whose id has the given string form: a search that does
      not build anything. */
  function LastWithKey(rows: seq<Object>, key: string): (r: Option<Object>)
    ensures r.Some? ==> r.value in rows && Key(Get(r.value, "id")) == key
    ensures r.None? <==> forall i :: 0 <= i < |rows| ==> Key(Get(rows[i], "id")) != key
  {
    if |rows| == 0 then None
    else if Key(Get(rows[|rows| - 1], "id")) == key then Some(rows[|rows| - 1])
    else
      var r := LastWithKey(rows[..|rows| - 1], key);
      assert forall i :: 0 <= i < |rows| - 1 ==> rows[..|rows| - 1][i] == rows[i];
      r
  }

  /** The lookup object holds a key exactly when some row has that id, and
      then the last such row. */
  lemma {:induction false} IndexByIdFinds(rows: seq<Object>, key: string)
    ensures key in IndexById(rows) <==> LastWithKey(rows, key).Some?
    ensures key in IndexById(rows) ==> IndexById(rows)[key] == LastWithKey(rows, key).value
  {
    if |rows| > 0 {
      IndexByIdFinds(rows[..|rows| - 1], key);
    }
  }

  /** `map[row.destination_id] || null`: the row found, as a value, or null. */
  function RowOrNull(m: map<string, Object>, key: string): (r: JsValue)
    ensures r == Null <==> key !in m
    ensures key in m ==> r == Obj(m[key])
  {
    if key in m then Obj(m[key]) else Null
  }

  // -----------------------------------------------------------------------
  // packageHotelMap: joins.reduce(...)

  /** The per-package hotel lists, keyed by the string form of the package
      id: every join row makes its key present, and a non-null hotel is
      pushed onto the list. */
  function GroupHotels(joins: seq<JoinRow>): map<string, seq<Object>>
  {
    if |joins| == 0 then map[]
    else
      var acc := GroupHotels(joins[..|joins| - 1]);
      var j := joins[|joins| - 1];
      var list := Lookup(acc, Key(j.packageId), []);
      acc[Key(j.packageId) := if j.hotel.Some? then list + [j.hotel.value] else list]
  }

  /** The non-null hotels of the join rows of one package, in join-row
      order: the reference the grouping is proved against. */
  function HotelsOf(joins: seq<JoinRow>, key: string): (r: seq<Object>)
    ensures |r| <= |joins|
  {
    if |joins| == 0 then []
    else
      (if Key(joins[0].packageId) == key && joins[0].hotel.Some? then [joins[0].hotel.value] else [])
      + HotelsOf(joins[1..], key)
  }

  /** `HotelsOf` over a join list that grows at the end. */
  lemma {:induction false} HotelsOfSnoc(joins: seq<JoinRow>, j: JoinRow, key: string)
    ensures HotelsOf(joins + [j], key)
         == HotelsOf(joins, key) + (if Key(j.packageId) == key && j.hotel.Some? then [j.hotel.value] else [])
  {
    if |joins| == 0 {
      assert joins + [j] == [j];
    } else {
      assert (joins + [j])[1..] == joins[1..] + [j];
      HotelsOfSnoc(joins[1..], j, key);
    }
  }

  /** A package with no join row gets no hotels. */
  lemma {:induction false} HotelsOfAbsent(joins: seq<JoinRow>, key: string)
    requires forall i :: 0 <= i < |joins| ==> Key(joins[i].packageId) != key
    ensures HotelsOf(joins, key) == []
  {
    if |joins| > 0 {
      HotelsOfAbsent(joins[1..], key);
    }
  }

  /** `map[item.id] || []`: the grouped list of a package is exactly its
      non-null joined hotels, in join-row order. */
  lemma {:induction false} GroupHotelsIsHotelsOf(joins: seq<JoinRow>, key: string)
    ensures Lookup(GroupHotels(joins), key, []) == HotelsOf(joins, key)
  {
    if |joins| == 0 {
    } else {
      var init := joins[..|joins| - 1];
      var j := joins[|joins| - 1];
      GroupHotelsIsHotelsOf(init, key);
      assert joins == init + [j];
      HotelsOfSnoc(init, j, key);
    }
  }

  /** Every hotel a package is given comes from one of its own join rows. */
  lemma {:induction false} HotelsOfFromJoins(joins: seq<JoinRow>, key: string, h: Object)
    requires h in HotelsOf(joins, key)
    ensures exists i :: 0 <= i < |joins| && Key(joins[i].packageId) == key && joins[i].hotel == Some(h)
  {
    if |joins| > 0 {
      if Key(joins[0].packageId) == key && joins[0].hotel == Some(h) {
        assert Key(joins[0].packageId) == key && joins[0].hotel == Some(h);
      } else {
        HotelsOfFromJoins(joins[1..], key, h);
        var i :| 0 <= i < |joins[1..]| && Key(joins[1..][i].packageId) == key && joins[1..][i].hotel == Some(h);
        assert joins[i + 1] == joins[1..][i];
      }
    }
  }

  /** Rows as values, in order. */
  function RowValues(rows: seq<Object>): (r: seq<JsValue>)
    ensures |r| == |rows|
    ensures forall i :: 0 <= i < |rows| ==> r[i] == Obj(rows[i])
  {
    seq(|rows|, i requires 0 <= i < |rows| => Obj(rows[i]))
  }

  // -----------------------------------------------------------------------
  // Errors of two lookups run together

  /** `a?.message || b?.message`: the first error's message unless it is
      empty, else the second's, else nothing. */
  function EitherError(a: Option<string>, b: Option<string>): (r: JsValue)
    ensures a.Some? && a.value != "" ==> r == Str(a.value)
    ensures (a.None? || a.value == "") && b.Some? ==> r == Str(b.value)
    ensures (a.None? || a.value == "") && b.None? ==> r == Undefined
  {
    if a.Some? && a.value != "" then Str(a.value)
    else if b.Some? then Str(b.value)
    else Undefined
  }

  /** `res.status(500).json({ error })` with a possibly absent message. */
  function ServerError(error: JsValue): (r: Response)
    ensures r.status == 500 && r.body.Obj? && Get(r.body.fields, "error") == error
  {
    Response(500, Obj(map["error" := error]))
  }

  /** `{ ...item, amenities: toNullableArray(item.amenities) }`. */
  function WithAmenities(item: Object): (r: Object)
    ensures r.Keys == item.Keys + {"amenities"}
    ensures forall k :: k in item && k != "amenities" ==> r[k] == item[k]
    ensures r["amenities"].Arr?
    ensures Get(item, "amenities").Arr? ==> r["amenities"] == item["amenities"]
  {
    item["amenities" := ToNullableArray(Get(item, "amenities"))]
  }
}
