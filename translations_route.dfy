/**
 * The admin translations router: the locale list it accepts, the value
 * normaliser it applies to request bodies, and the request gates of POST,
 * PUT and POST /import in front of the Translation model.
 */
module TranslationsRoute {
  import opened JsRuntime
  import opened TranslationKeys
  import opened Translation

  const DefaultLocales: seq<string> := ["zh", "en"]

  /** The `I18N_LOCALES` setting, `''` when unset. */
  function EnvText(env: Option<string>): string
  {
    if env.Some? then env.value else ""
  }

  /**
   * `AVAILABLE_LOCALES`: the comma-separated setting with every piece
   * trimmed and blank pieces dropped, with the case left as written; when
   * nothing remains, zh and en.
   */
  function AvailableLocales(env: Option<string>): (r: seq<string>)
    ensures |r| >= 1
    ensures forall i :: 0 <= i < |r| ==> r[i] != ""
    ensures var pieces := TrimmedNonEmpty(Split(EnvText(env), ','));
      (pieces == [] ==> r == DefaultLocales) && (pieces != [] ==> r == pieces)
  {
    var supported := TrimmedNonEmpty(Split(EnvText(env), ','));
    TrimmedNonEmptyClean(Split(EnvText(env), ','));
    if supported != [] then supported else DefaultLocales
  }

  /** An unset or blank setting falls back to zh and en. */
  lemma UnsetLocales()
    ensures AvailableLocales(None) == DefaultLocales
  {
    assert Split("", ',') == [""];
    assert Trim("") == "";
  }

  /**
   * A setting `a,b` with more pieces after it lists the locales of `a`
   * followed by those of `b`; a piece that is blank once trimmed adds
   * nothing, and any other piece adds its trimmed text, case kept.
   */
  lemma AvailableLocalesAppend(a: string, piece: string)
    requires ',' !in piece
    ensures var before := TrimmedNonEmpty(Split(a, ','));
      AvailableLocales(Some(a + [','] + piece)) ==
        if Trim(piece) == "" then AvailableLocales(Some(a))
        else before + [Trim(piece)]
  {
    SplitAppendPiece(a, ',', piece);
    TrimmedNonEmptyAppend(Split(a, ','), [piece]);
    TrimmedNonEmptyOne(piece);
  }

  /** A single locale written with spaces around it is that locale alone. */
  lemma AvailableLocalesSingle(piece: string)
    requires ',' !in piece && Trim(piece) != ""
    ensures AvailableLocales(Some(piece)) == [Trim(piece)]
  {
    SplitNoSeparator(piece, ',');
    TrimmedNonEmptyOne(piece);
  }

  // ---------------------------------------------------------------------
  // normalizeValues
  // ---------------------------------------------------------------------

  /**
   * `result[key] = value` on an object built by assignment: an existing key
   * keeps its position and takes the new value, a new key goes last.
   */
  function PutField(fields: seq<(string, Json)>, key: string, value: Json): seq<(string, Json)>
  {
    match LastKeyIndex(fields, key)
    case Some(k) => fields[k := (key, value)]
    case None => fields + [(key, value)]
  }

  /**
   * After the assignment every field that was there keeps its name and its
   * place, the key holds the new value, every field but the one overwritten
   * is unchanged, and the object grows by one field exactly when the key was
   * new.
   */
  lemma PutFieldLookup(fields: seq<(string, Json)>, key: string, value: Json)
    ensures var r := PutField(fields, key, value);
      |r| == (if LastKeyIndex(fields, key).None? then |fields| + 1 else |fields|)
      && (forall j :: 0 <= j < |fields| ==> r[j].0 == fields[j].0)
      && LastKeyIndex(r, key).Some? && r[LastKeyIndex(r, key).value].1 == value
      && (forall j :: 0 <= j < |fields| && fields[j].0 != key ==> r[j] == fields[j])
      && (forall j :: 0 <= j < |fields| && (LastKeyIndex(fields, key).None? || j != LastKeyIndex(fields, key).value) ==> r[j] == fields[j])
  {
    var r := PutField(fields, key, value);
    match LastKeyIndex(fields, key)
    case Some(k) =>
      LastKeyIndexUpdate(fields, k, key, value);
    case None =>
      assert r[|fields|] == (key, value);
      assert r == fields + [(key, value)];
      assert (fields + [(key, value)])[..|fields|] == fields;
  }

  lemma {:induction false} LastKeyIndexUpdate(fields: seq<(string, Json)>, k: nat, key: string, value: Json)
    requires LastKeyIndex(fields, key) == Some(k)
    ensures LastKeyIndex(fields[k := (key, value)], key) == Some(k)
    decreases |fields|
  {
    var r := fields[k := (key, value)];
    if k < |fields| - 1 {
      LastKeyIndexUpdate(fields[..|fields| - 1], k, key, value);
      assert r[..|r| - 1] == fields[..|fields| - 1][k := (key, value)];
    }
  }

  /** The position of the last field named `key`, if any. */
  function LastKeyIndex(fields: seq<(string, Json)>, key: string): (r: Option<nat>)
    ensures r.Some? ==> r.value < |fields| && fields[r.value].0 == key
    ensures r.Some? ==> forall j :: r.value < j < |fields| ==> fields[j].0 != key
    ensures r.None? ==> forall j :: 0 <= j < |fields| ==> fields[j].0 != key
  {
    if fields == [] then None
    else if fields[|fields| - 1].0 == key then Some(|fields| - 1)
    else LastKeyIndex(fields[..|fields| - 1], key)
  }

  /** Every value of the object is a string. */
  predicate AllStrings(fields: seq<(string, Json)>)
  {
    forall i :: 0 <= i < |fields| ==> fields[i].1.JStr?
  }

  /** The object `normalizeValues` fills from the entries `es`, in order. */
  function NormalizedFrom(es: seq<(string, Json)>): (r: seq<(string, Json)>)
    ensures AllStrings(r)
    ensures |r| <= |es|
  {
    if es == [] then []
    else
      var prev := NormalizedFrom(es[..|es| - 1]);
      var (locale, value) := es[|es| - 1];
      if IsNullish(value) then prev
      else
        PutFieldOfStrings(prev, locale, ToStr(value));
        PutField(prev, locale, JStr(ToStr(value)))
  }

  /** Putting a string into an object of strings keeps it an object of strings. */
  lemma PutFieldOfStrings(fields: seq<(string, Json)>, key: string, s: string)
    requires AllStrings(fields)
    ensures AllStrings(PutField(fields, key, JStr(s)))
  {
  }

  /**
   * `normalizeValues(values)`: a value that is not an object (arrays count
   * as objects) gives `{}`; otherwise null and undefined entries are
   * dropped and every other entry is stored as its string form.
   */
  function NormalizedValues(values: Json): (r: Json)
    ensures r.JObj?
    ensures !IsContainer(values) ==> r == JObj([])
  {
    if !IsContainer(values) then JObj([]) else JObj(NormalizedFrom(ObjectEntries(values)))
  }

  /** `normalizeValues` as written: a `forEach` that assigns into `result`. */
  method NormalizeValues(values: Json) returns (result: seq<(string, Json)>)
    ensures JObj(result) == NormalizedValues(values)
  {
    result := [];
    if !IsContainer(values) {
      return;
    }
    var es := ObjectEntries(values);
    var i := 0;
    while i < |es|
      invariant 0 <= i <= |es|
      invariant result == NormalizedFrom(es[..i])
    {
      var (locale, value) := es[i];
      assert es[..i + 1][..i] == es[..i];
      if !IsNullish(value) {
        result := PutField(result, locale, JStr(ToStr(value)));
      }
      i := i + 1;
    }
    assert es[..i] == es;
  }

  /** Assigning a string under a key sets exactly that key of the locale map. */
  lemma ValuesFromPutField(fields: seq<(string, Json)>, key: string, s: string)
    ensures ValuesFrom(PutField(fields, key, JStr(s))) == ValuesFrom(fields)[key := s]
  {
    match LastKeyIndex(fields, key)
    case Some(k) =>
      ValuesFromUpdate(fields, k, key, s);
    case None =>
      assert (fields + [(key, JStr(s))])[..|fields|] == fields;
  }

  /** Overwriting the last field named `key` overrides that key alone. */
  lemma {:induction false} ValuesFromUpdate(fields: seq<(string, Json)>, k: nat, key: string, s: string)
    requires LastKeyIndex(fields, key) == Some(k)
    ensures ValuesFrom(fields[k := (key, JStr(s))]) == ValuesFrom(fields)[key := s]
    decreases |fields|
  {
    var init, last := fields[..|fields| - 1], fields[|fields| - 1];
    var r := fields[k := (key, JStr(s))];
    if k == |fields| - 1 {
      assert r[..|r| - 1] == init;
    } else {
      ValuesFromUpdate(init, k, key, s);
      assert r[..|r| - 1] == init[k := (key, JStr(s))];
      assert r[|r| - 1] == last && last.0 != key;
    }
  }

  /**
   * The model normalises the route's output again; doing so changes
   * nothing, so the stored locale values are those of the request body.
   */
  lemma {:induction false} NormalizedFromValues(es: seq<(string, Json)>)
    ensures ValuesFrom(NormalizedFrom(es)) == ValuesFrom(es)
    decreases |es|
  {
    if es != [] {
      var init := es[..|es| - 1];
      NormalizedFromValues(init);
      var (locale, value) := es[|es| - 1];
      if !IsNullish(value) {
        ValuesFromPutField(NormalizedFrom(init), locale, ToStr(value));
      }
    }
  }

  lemma NormalizeValuesTwice(values: Json)
    ensures LocaleValues(NormalizedValues(values)) == LocaleValues(values)
  {
    if IsContainer(values) {
      NormalizedFromValues(ObjectEntries(values));
    }
  }

  // ---------------------------------------------------------------------
  // Request gates
  // ---------------------------------------------------------------------

  /** `req.admin` after authentication, if any. */
  datatype Admin = Admin(username: Option<string>, id: Option<int>)

  function AdminName(admin: Option<Admin>): Option<string>
  {
    if admin.Some? then admin.value.username else None
  }

  function AdminId(admin: Option<Admin>): Option<int>
  {
    if admin.Some? then admin.value.id else None
  }

  /**
   * A request body of POST or PUT. `label` and `description` are the strings
   * the validators let through; `sortOrder` is the integer `toInt` produced.
   */
  datatype Body = Body(
    fullKey: Json, labelText: Option<string>, description: Option<string>,
    sortOrder: Option<int>, values: Json)

  /** `values` is optional but, when present, must be a plain object (not null, not an array). */
  predicate ValuesAccepted(values: Json)
  {
    values.JUndef? || values.JObj?
  }

  predicate SortOrderAccepted(sortOrder: Option<int>)
  {
    sortOrder.None? || sortOrder.value >= 0
  }

  /**
   * POST /: the validators demand a non-empty string key, a non-negative
   * sort order and an object of values; `None` is the 400 response. The
   * payload passed to `create` carries the normalised values and no
   * namespace.
   */
  function PostPayload(body: Body, admin: Option<Admin>): (r: Option<CreateData>)
    ensures r.Some? <==>
      body.fullKey.JStr? && body.fullKey.s != "" && SortOrderAccepted(body.sortOrder) && ValuesAccepted(body.values)
    ensures r.Some? ==> r.value.fullKey == body.fullKey && r.value.namespace.None?
    ensures r.Some? ==> LocaleValues(r.value.values) == LocaleValues(body.values)
  {
    if !(body.fullKey.JStr? && body.fullKey.s != "") || !SortOrderAccepted(body.sortOrder) || !ValuesAccepted(body.values) then None
    else
      var values := if Truthy(body.values) then body.values else JObj([]);
      NormalizeValuesTwice(values);
      Some(CreateData(body.fullKey, None, body.labelText, body.description, body.sortOrder,
        NormalizedValues(values), AdminName(admin), AdminId(admin)))
  }

  /**
   * PUT /:id: the key, when present, must be a non-empty string; an absent
   * `values` is passed on as undefined, so `update` keeps the stored values.
   */
  function PutPayload(body: Body, admin: Option<Admin>): (r: Option<UpdateData>)
    ensures r.Some? <==>
      (body.fullKey.JUndef? || (body.fullKey.JStr? && body.fullKey.s != ""))
      && SortOrderAccepted(body.sortOrder) && ValuesAccepted(body.values)
    ensures r.Some? ==> (r.value.values.None? <==> body.values.JUndef?)
    ensures r.Some? && r.value.values.Some? ==> LocaleValues(r.value.values.value) == LocaleValues(body.values)
    ensures r.Some? ==> r.value.fullKey == body.fullKey && r.value.namespace.None?
    ensures r.Some? ==>
      r.value.labelText == body.labelText && r.value.description == body.description
      && r.value.sortOrder == body.sortOrder
      && r.value.updatedBy == AdminName(admin) && r.value.updatedById == AdminId(admin)
  {
    if !(body.fullKey.JUndef? || (body.fullKey.JStr? && body.fullKey.s != ""))
      || !SortOrderAccepted(body.sortOrder) || !ValuesAccepted(body.values) then None
    else
      NormalizeValuesTwice(body.values);
      Some(UpdateData(body.fullKey, None, body.labelText, body.description, body.sortOrder,
        if body.values.JUndef? then None else Some(NormalizedValues(body.values)),
        AdminName(admin), AdminId(admin)))
  }

  /** A PUT without `values` leaves every locale of the row as it was. */
  lemma PutKeepsValuesWhenAbsent(rows: Rows, id: nat, body: Body, admin: Option<Admin>)
    requires body.values.JUndef?
    requires PutPayload(body, admin).Some?
    ensures var o := UpdateSpec(rows, id, PutPayload(body, admin).value);
      id in rows && o.1.Ok? ==> id in o.0 && o.0[id].values == rows[id].values
  {
  }

  /**
   * A PUT without label, description or sort order keeps the stored ones:
   * those fields follow the same present-only rule as `values`.
   */
  lemma PutKeepsColumnsWhenAbsent(rows: Rows, id: nat, body: Body, admin: Option<Admin>)
    requires body.labelText.None? && body.description.None? && body.sortOrder.None?
    requires PutPayload(body, admin).Some?
    ensures var o := UpdateSpec(rows, id, PutPayload(body, admin).value);
      id in rows && o.1.Ok? ==>
        id in o.0 && o.0[id].labelText == rows[id].labelText
        && o.0[id].description == rows[id].description && o.0[id].sortOrder == rows[id].sortOrder
  {
  }

  /**
   * POST /import: 400 unless `locale` is a non-empty string on the locale
   * list and `data` is a plain object; only then is `importLocale` called.
   */
  predicate ImportAccepted(available: seq<string>, locale: Json, data: Json)
  {
    locale.JStr? && locale.s != "" && data.JObj? && locale.s in available
  }

  /** The response status of POST /import and, on success, the count. */
  datatype ImportResponse = ImportResponse(status: int, count: Option<nat>)

  /** POST /import against the table. */
  method ImportRoute(table: TranslationTable, available: seq<string>, locale: Json, data: Json, admin: Option<Admin>)
    returns (response: ImportResponse)
    requires table.Valid()
    modifies table
    ensures table.Valid()
    ensures !ImportAccepted(available, locale, data) ==>
      response == ImportResponse(400, None) && table.rows == old(table.rows) && table.nextId == old(table.nextId)
    ensures ImportAccepted(available, locale, data) ==>
      var o := ImportSpec(old(table.rows), old(table.nextId), locale.s, Flatten(data, ""),
        ImportMeta(AdminName(admin), AdminId(admin)), |Flatten(data, "")|);
      table.rows == o.rows && table.nextId == o.nextId
      && (o.result.Ok? ==> response == ImportResponse(200, Some(o.result.value)))
      && (o.result.Ok? ==> response.count == Some(|Leaves(data)|))
      && (o.result.Err? ==> response == ImportResponse(500, None))
  {
    if !(locale.JStr? && locale.s != "" && data.JObj?) {
      return ImportResponse(400, None);
    }
    if locale.s !in available {
      return ImportResponse(400, None);
    }
    var result := table.ImportLocale(locale.s, data, ImportMeta(AdminName(admin), AdminId(admin)));
    FlattenCount(data);
    if result.Err? {
      return ImportResponse(500, None);
    }
    response := ImportResponse(200, Some(result.value));
  }

  /**
   * A successful import reports one entry per leaf of the payload: every
   * scalar or null in it, however deeply nested, and nothing for an empty
   * array or object.
   */
  lemma ImportCountsLeaves(rows: Rows, nextId: nat, locale: string, data: Json, meta: ImportMeta)
    requires data.JObj?
    ensures var o := ImportSpec(rows, nextId, locale, Flatten(data, ""), meta, |Flatten(data, "")|);
      o.result.Ok? ==> o.result.value == |Leaves(data)|
  {
    FlattenCount(data);
  }
}
