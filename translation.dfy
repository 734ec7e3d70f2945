/**
 * The `translations` table and the statics of the Translation model that
 * write and read it: create, update, delete, the per-key locale upsert,
 * locale import (flatten then upsert each entry) and locale export (fold
 * the rows back into a tree).
 */
module Translation {
  import opened JsRuntime
  import opened TranslationKeys

  /**
   * The `namespace` column: a name the caller gave, or `Derived`, the name
   * `deriveNamespace` computes from the row's own `full_key`. Every write
   * that stores a derived namespace writes the key it is derived from in
   * the same statement, so `NamespaceOf` reads the column back.
   */
  datatype Namespace = Given(name: string) | Derived

  /** One row of `translations`; `None` is SQL NULL. */
  datatype Entry = Entry(
    id: nat,
    namespace: Namespace,
    fullKey: string,
    labelText: Option<string>,
    description: Option<string>,
    sortOrder: int,
    values: map<string, string>,
    updatedBy: Option<string>,
    updatedById: Option<int>)

  /** The value of the `namespace` column of a row. */
  function NamespaceOf(e: Entry): string
  {
    match e.namespace
    case Given(name) => name
    case Derived => DeriveNamespace(e.fullKey)
  }

  /** `namespace || deriveNamespace(fullKey)`: a truthy given name, else the derived one. */
  function NamespaceColumn(given: Option<string>): (r: Namespace)
    ensures r.Given? <==> given.Some? && given.value != ""
    ensures r.Given? ==> r.name == given.value
  {
    if given.Some? && given.value != "" then Given(given.value) else Derived
  }

  /** `new Error('fullKey is required')` and MySQL's `ER_DUP_ENTRY` on the unique `full_key`. */
  datatype StoreError = FullKeyRequired | DuplicateEntry

  datatype Result<T> = Ok(value: T) | Err(error: StoreError)

  type Rows = map<nat, Entry>

  /** Rows are keyed by their id, ids are below the auto-increment counter, and `full_key` is unique. */
  predicate ValidRows(rows: Rows, nextId: nat)
  {
    (forall id :: id in rows ==> rows[id].id == id && id < nextId)
    && (forall a, b {:trigger KeyAt(rows, a), KeyAt(rows, b)} :: a in rows && b in rows && KeyAt(rows, a) == KeyAt(rows, b) ==> a == b)
  }

  /** Writing row `id` keeps the table consistent when no other row holds its key. */
  lemma PutKeepsValid(rows: Rows, nextId: nat, id: nat, e: Entry, nextId': nat)
    requires ValidRows(rows, nextId) && nextId <= nextId' && e.id == id && id < nextId'
    requires forall x :: x in rows && x != id ==> rows[x].fullKey != e.fullKey
    ensures ValidRows(rows[id := e], nextId')
  {
    var after := rows[id := e];
    forall a, b | a in after && b in after && KeyAt(after, a) == KeyAt(after, b)
      ensures a == b
    {
      if a != id && b != id {
        assert KeyAt(rows, a) == KeyAt(rows, b);
      }
    }
  }

  /** Removing a row keeps the table consistent. */
  lemma RemoveKeepsValid(rows: Rows, nextId: nat, id: nat)
    requires ValidRows(rows, nextId)
    ensures ValidRows(rows - {id}, nextId)
  {
    var after := rows - {id};
    forall a, b | a in after && b in after && KeyAt(after, a) == KeyAt(after, b)
      ensures a == b
    {
      assert KeyAt(rows, a) == KeyAt(rows, b);
    }
  }

  /** The `full_key` of row `id`. */
  function KeyAt(rows: Rows, id: nat): string
    requires id in rows
  {
    rows[id].fullKey
  }

  predicate HasKey(rows: Rows, key: string)
  {
    exists id :: id in rows && rows[id].fullKey == key
  }

  /** The id of the row holding `key`, if any. */
  ghost function FindKey(rows: Rows, key: string): (r: Option<nat>)
    ensures r.Some? ==> r.value in rows && rows[r.value].fullKey == key
    ensures r.None? <==> !HasKey(rows, key)
  {
    if HasKey(rows, key) then Some(var id :| id in rows && rows[id].fullKey == key; id) else None
  }

  lemma FindKeyUnique(rows: Rows, nextId: nat, key: string, id: nat)
    requires ValidRows(rows, nextId)
    requires id in rows && rows[id].fullKey == key
    ensures FindKey(rows, key) == Some(id)
  {
    assert KeyAt(rows, id) == KeyAt(rows, FindKey(rows, key).value);
  }

  /** `findByFullKey`: the key is sanitised again, and an empty key finds nothing. */
  ghost function Lookup(rows: Rows, fullKey: Json): (r: Option<Entry>)
    ensures SanitizeFullKey(fullKey) == "" ==> r.None?
    ensures r.Some? ==> r.value in rows.Values && r.value.fullKey == SanitizeFullKey(fullKey)
  {
    var key := SanitizeFullKey(fullKey);
    if key == "" then None
    else
      match FindKey(rows, key)
      case None => None
      case Some(id) => Some(rows[id])
  }

  /** A falsy string column value becomes null. */
  function OrNull(v: Option<string>): (r: Option<string>)
    ensures r.Some? <==> v.Some? && v.value != ""
    ensures r.Some? ==> r == v
  {
    if v.Some? && v.value != "" then v else None
  }

  /** A falsy integer column value becomes null. */
  function OrNullInt(v: Option<int>): (r: Option<int>)
    ensures r.Some? <==> v.Some? && v.value != 0
    ensures r.Some? ==> r == v
  {
    if v.Some? && v.value != 0 then v else None
  }

  /** A falsy string is replaced by the default. */
  function OrElse(v: Option<string>, d: string): (r: string)
    ensures v.Some? && v.value != "" ==> r == v.value
    ensures v.None? || v.value == "" ==> r == d
  {
    if v.Some? && v.value != "" then v.value else d
  }

  /** A missing integer is replaced by the default. */
  function OrDefault(v: Option<int>, d: int): int
  {
    if v.Some? then v.value else d
  }

  /** The state of the table after an operation, and what the operation returned. */
  datatype Outcome = Outcome(rows: Rows, nextId: nat, result: Result<nat>)

  // ---------------------------------------------------------------------
  // create
  // ---------------------------------------------------------------------

  /** The body `create` is called with; `None` is undefined. */
  datatype CreateData = CreateData(
    fullKey: Json, namespace: Option<string>, labelText: Option<string>, description: Option<string>,
    sortOrder: Option<int>, values: Json, updatedBy: Option<string>, updatedById: Option<int>)

  /**
   * `create`: an empty sanitised key throws before the insert, a key already
   * present fails on the unique index, and otherwise one row is inserted
   * under the next auto-increment id.
   */
  ghost function CreateSpec(rows: Rows, nextId: nat, data: CreateData): (o: Outcome)
    ensures SanitizeFullKey(data.fullKey) == "" ==> o == Outcome(rows, nextId, Err(FullKeyRequired))
    ensures o.result.Err? ==> o.rows == rows && o.nextId == nextId
    ensures o.result.Ok? ==> o.result.value == nextId && o.rows.Keys == rows.Keys + {nextId}
    ensures o.result.Ok? ==> nextId in o.rows && o.rows[nextId].fullKey == SanitizeFullKey(data.fullKey)
    ensures o.result.Ok? ==> nextId in o.rows && o.rows[nextId].values == LocaleValues(data.values)
    ensures o.result.Ok? ==>
      nextId in o.rows && NamespaceOf(o.rows[nextId]) == OrElse(data.namespace, DeriveNamespace(SanitizeFullKey(data.fullKey)))
    ensures o.result.Ok? <==> SanitizeFullKey(data.fullKey) != "" && !HasKey(rows, SanitizeFullKey(data.fullKey))
    ensures o.result == Err(DuplicateEntry) <==> SanitizeFullKey(data.fullKey) != "" && HasKey(rows, SanitizeFullKey(data.fullKey))
    ensures o.result.Ok? ==> nextId in o.rows && o.rows[nextId].id == nextId
    ensures o.result.Ok? ==> nextId in o.rows && o.rows[nextId].labelText == OrNull(data.labelText)
    ensures o.result.Ok? ==> nextId in o.rows && o.rows[nextId].description == OrNull(data.description)
    ensures o.result.Ok? ==> nextId in o.rows && o.rows[nextId].sortOrder == OrDefault(data.sortOrder, 0)
    ensures o.result.Ok? ==> nextId in o.rows && o.rows[nextId].updatedBy == OrNull(data.updatedBy)
    ensures o.result.Ok? ==> nextId in o.rows && o.rows[nextId].updatedById == OrNullInt(data.updatedById)
    ensures o.result.Ok? ==> o.nextId == nextId + 1 && forall id :: id in rows && id != nextId ==> o.rows[id] == rows[id]
  {
    var key := SanitizeFullKey(data.fullKey);
    if key == "" then Outcome(rows, nextId, Err(FullKeyRequired))
    else if HasKey(rows, key) then Outcome(rows, nextId, Err(DuplicateEntry))
    else
      var e := Entry(nextId, NamespaceColumn(data.namespace), key, OrNull(data.labelText),
        OrNull(data.description), OrDefault(data.sortOrder, 0), LocaleValues(data.values),
        OrNull(data.updatedBy), OrNullInt(data.updatedById));
      Outcome(rows[nextId := e], nextId + 1, Ok(nextId))
  }

  // ---------------------------------------------------------------------
  // update
  // ---------------------------------------------------------------------

  /** The body `update` is called with; `None` (and `JUndef` for the key) is undefined. */
  datatype UpdateData = UpdateData(
    fullKey: Json, namespace: Option<string>, labelText: Option<string>, description: Option<string>,
    sortOrder: Option<int>, values: Option<Json>, updatedBy: Option<string>, updatedById: Option<int>)

  /** Whether `update` has any column to set. */
  predicate HasFields(data: UpdateData)
  {
    Truthy(data.fullKey) || data.labelText.Some? || data.description.Some? || data.sortOrder.Some?
    || data.values.Some? || data.updatedBy.Some? || data.updatedById.Some?
  }

  /**
   * The row after `update`: only the given columns change. A truthy
   * `fullKey` is sanitised but not checked for emptiness, and the namespace
   * is recomputed from it.
   */
  function Patched(e: Entry, data: UpdateData): (r: Entry)
    ensures r.id == e.id
    ensures !Truthy(data.fullKey) ==> r.fullKey == e.fullKey && r.namespace == e.namespace
    ensures Truthy(data.fullKey) ==> r.fullKey == SanitizeFullKey(data.fullKey)
    ensures Truthy(data.fullKey) ==> NamespaceOf(r) == OrElse(data.namespace, DeriveNamespace(r.fullKey))
    ensures data.values.None? ==> r.values == e.values
    ensures data.values.Some? ==> r.values == LocaleValues(data.values.value)
    ensures data.labelText.None? ==> r.labelText == e.labelText
    ensures data.labelText.Some? ==> r.labelText == OrNull(data.labelText)
    ensures data.description.None? ==> r.description == e.description
    ensures data.description.Some? ==> r.description == OrNull(data.description)
    ensures data.sortOrder.None? ==> r.sortOrder == e.sortOrder
    ensures data.sortOrder.Some? ==> r.sortOrder == data.sortOrder.value
    ensures data.updatedBy.None? ==> r.updatedBy == e.updatedBy
    ensures data.updatedBy.Some? ==> r.updatedBy == OrNull(data.updatedBy)
    ensures data.updatedById.None? ==> r.updatedById == e.updatedById
    ensures data.updatedById.Some? ==> r.updatedById == OrNullInt(data.updatedById)
  {
    var key := if Truthy(data.fullKey) then SanitizeFullKey(data.fullKey) else e.fullKey;
    Entry(
      e.id,
      if Truthy(data.fullKey) then NamespaceColumn(data.namespace) else e.namespace,
      key,
      if data.labelText.Some? then OrNull(data.labelText) else e.labelText,
      if data.description.Some? then OrNull(data.description) else e.description,
      if data.sortOrder.Some? then data.sortOrder.value else e.sortOrder,
      if data.values.Some? then LocaleValues(data.values.value) else e.values,
      if data.updatedBy.Some? then OrNull(data.updatedBy) else e.updatedBy,
      if data.updatedById.Some? then OrNullInt(data.updatedById) else e.updatedById)
  }

  /**
   * `update(id, data)`: no fields means no statement (`affectedRows: 0`,
   * reported as `Ok(false)`); a missing id changes nothing; a new key held
   * by another row fails on the unique index.
   */
  function UpdateSpec(rows: Rows, id: nat, data: UpdateData): (o: (Rows, Result<bool>))
    ensures o.1.Err? ==> o.0 == rows
    ensures !HasFields(data) ==> o == (rows, Ok(false))
    ensures o.0.Keys == rows.Keys
    ensures forall other :: other in rows && other != id ==> o.0[other] == rows[other]
    ensures HasFields(data) && id !in rows ==> o == (rows, Ok(true))
    ensures HasFields(data) && id in rows && o.1.Ok? ==> o == (rows[id := Patched(rows[id], data)], Ok(true))
    ensures HasFields(data) && id in rows ==>
      (o.1.Err? <==> exists other :: other in rows && other != id && rows[other].fullKey == Patched(rows[id], data).fullKey)
  {
    if !HasFields(data) then (rows, Ok(false))
    else if id !in rows then (rows, Ok(true))
    else
      var e := Patched(rows[id], data);
      if exists other :: other in rows && other != id && rows[other].fullKey == e.fullKey then
        (rows, Err(DuplicateEntry))
      else (rows[id := e], Ok(true))
  }

  // ---------------------------------------------------------------------
  // upsertLocaleEntry
  // ---------------------------------------------------------------------

  /** The arguments of `upsertLocaleEntry`; `None` is undefined. */
  datatype UpsertData = UpsertData(
    fullKey: Json, locale: string, value: Json, labelText: Option<string>, description: Option<string>,
    sortOrder: Option<int>, updatedBy: Option<string>, updatedById: Option<int>)

  /** The row an existing entry becomes: only `[locale]` of its values changes. */
  function Merged(e: Entry, d: UpsertData): (r: Entry)
    ensures r.id == e.id && r.fullKey == e.fullKey && r.namespace == e.namespace
    ensures r.values == e.values[d.locale := LeafText(d.value)]
    ensures d.labelText.None? ==> r.labelText == e.labelText
    ensures d.description.None? ==> r.description == e.description
    ensures r.sortOrder == if d.sortOrder.Some? then d.sortOrder.value else e.sortOrder
  {
    e.(values := e.values[d.locale := LeafText(d.value)],
       labelText := if d.labelText.None? then e.labelText else OrNull(d.labelText),
       description := if d.description.None? then e.description else OrNull(d.description),
       sortOrder := OrDefault(d.sortOrder, e.sortOrder),
       updatedBy := OrNull(d.updatedBy),
       updatedById := OrNullInt(d.updatedById))
  }

  /** The row inserted for a key not yet present. */
  function Fresh(id: nat, key: string, d: UpsertData): (r: Entry)
    ensures r.id == id && r.fullKey == key && r.namespace == Derived
    ensures r.values == map[d.locale := LeafText(d.value)]
    ensures r.sortOrder == if d.sortOrder.Some? then d.sortOrder.value else 0
  {
    Entry(id, Derived, key, OrNull(d.labelText), OrNull(d.description),
      OrDefault(d.sortOrder, 0), map[d.locale := LeafText(d.value)], OrNull(d.updatedBy), OrNullInt(d.updatedById))
  }

  /**
   * `upsertLocaleEntry`: an empty sanitised key throws with no write; an
   * existing key is merged in place; a new key is inserted.
   */
  ghost function UpsertSpec(rows: Rows, nextId: nat, d: UpsertData): Outcome
  {
    var key := SanitizeFullKey(d.fullKey);
    if key == "" then Outcome(rows, nextId, Err(FullKeyRequired))
    else
      match FindKey(rows, key)
      case Some(id) => Outcome(rows[id := Merged(rows[id], d)], nextId, Ok(id))
      case None => Outcome(rows[nextId := Fresh(nextId, key, d)], nextId + 1, Ok(nextId))
  }

  /** The upsert keeps ids and keys consistent. */
  lemma UpsertKeepsValid(rows: Rows, nextId: nat, d: UpsertData)
    requires ValidRows(rows, nextId)
    ensures var o := UpsertSpec(rows, nextId, d); ValidRows(o.rows, o.nextId)
  {
    var key := SanitizeFullKey(d.fullKey);
    if key != "" {
      match FindKey(rows, key)
      case Some(id) =>
        assert forall x :: x in rows && x != id ==> KeyAt(rows, x) != KeyAt(rows, id);
        PutKeepsValid(rows, nextId, id, Merged(rows[id], d), nextId);
      case None =>
        PutKeepsValid(rows, nextId, nextId, Fresh(nextId, key, d), nextId + 1);
    }
  }


  /**
   * After a successful upsert the returned row holds the key and the value
   * for the locale, every other locale of that row is unchanged, and every
   * other row is unchanged.
   */
  lemma UpsertOnlyThisLocale(rows: Rows, nextId: nat, d: UpsertData)
    requires ValidRows(rows, nextId)
    ensures var o := UpsertSpec(rows, nextId, d);
      o.result.Ok? <==> SanitizeFullKey(d.fullKey) != ""
    ensures var o := UpsertSpec(rows, nextId, d);
      o.result.Ok? ==>
        var id := o.result.value;
        id in o.rows && o.rows[id].fullKey == SanitizeFullKey(d.fullKey)
        && d.locale in o.rows[id].values && o.rows[id].values[d.locale] == LeafText(d.value)
        && (id in rows ==> forall l :: l != d.locale ==>
              (l in o.rows[id].values <==> l in rows[id].values)
              && (l in rows[id].values ==> o.rows[id].values[l] == rows[id].values[l]))
        && (id !in rows ==> o.rows[id].values.Keys == {d.locale} && id == nextId)
        && (forall other :: other in rows && other != id ==> other in o.rows && o.rows[other] == rows[other])
  {
  }

  /** An existing row keeps its label, description and sort order when those are undefined. */
  lemma UpsertKeepsUndefinedColumns(rows: Rows, nextId: nat, d: UpsertData, id: nat)
    requires ValidRows(rows, nextId)
    requires id in rows && rows[id].fullKey == SanitizeFullKey(d.fullKey) && rows[id].fullKey != ""
    requires d.labelText.None? && d.description.None? && d.sortOrder.None?
    ensures var o := UpsertSpec(rows, nextId, d);
      o.result == Ok(id) && o.rows[id].labelText == rows[id].labelText
      && o.rows[id].description == rows[id].description && o.rows[id].sortOrder == rows[id].sortOrder
      && o.rows[id].namespace == rows[id].namespace
  {
    FindKeyUnique(rows, nextId, rows[id].fullKey, id);
  }

  // ---------------------------------------------------------------------
  // importLocale
  // ---------------------------------------------------------------------

  /** `meta` of `importLocale`. */
  datatype ImportMeta = ImportMeta(updatedBy: Option<string>, updatedById: Option<int>)

  /** The upsert `importLocale` issues for the entry at `index`. */
  function ImportCall(locale: string, e: FlatEntry, index: nat, meta: ImportMeta): UpsertData
  {
    UpsertData(JStr(e.fullKey), locale, JStr(e.value), Some(e.labelText), None, Some(index),
      meta.updatedBy, meta.updatedById)
  }

  /**
   * The table after upserting the first `n` flattened entries, each with its
   * index as sort order; the first failing upsert stops the import, leaving
   * the rows written before it.
   */
  ghost function ImportSpec(rows: Rows, nextId: nat, locale: string, entries: seq<FlatEntry>, meta: ImportMeta, n: nat): (o: Outcome)
    requires n <= |entries|
    ensures o.result.Ok? ==> o.result.value == n
    decreases n, 1
  {
    if n == 0 then Outcome(rows, nextId, Ok(0)) else ImportThrough(rows, nextId, locale, entries, meta, n)
  }

  /** The import of the first `n - 1` entries followed by the upsert of entry `n - 1`. */
  ghost function ImportThrough(rows: Rows, nextId: nat, locale: string, entries: seq<FlatEntry>, meta: ImportMeta, n: nat): (o: Outcome)
    requires 0 < n <= |entries|
    ensures o.result.Ok? ==> o.result.value == n
    decreases n, 0
  {
    ImportNext(ImportSpec(rows, nextId, locale, entries, meta, n - 1), ImportCall(locale, entries[n - 1], n - 1, meta), n)
  }

  /** One iteration of the import loop: stop at the first error, else count the upsert. */
  ghost function ImportNext(prev: Outcome, d: UpsertData, n: nat): (o: Outcome)
    ensures o.result.Ok? ==> o.result.value == n
  {
    if prev.result.Err? then prev
    else
      var step := UpsertSpec(prev.rows, prev.nextId, d);
      if step.result.Err? then Outcome(step.rows, step.nextId, step.result)
      else Outcome(step.rows, step.nextId, Ok(n))
  }

  lemma ImportNextKeepsValid(prev: Outcome, d: UpsertData, n: nat)
    requires ValidRows(prev.rows, prev.nextId)
    ensures var o := ImportNext(prev, d, n); ValidRows(o.rows, o.nextId)
  {
    if prev.result.Ok? {
      UpsertKeepsValid(prev.rows, prev.nextId, d);
    }
  }

  /** Once an upsert has failed, the remaining entries are not written. */
  lemma {:induction false} ImportStopsAtError(rows: Rows, nextId: nat, locale: string, entries: seq<FlatEntry>, meta: ImportMeta, n: nat, m: nat)
    requires n <= m <= |entries|
    requires ImportSpec(rows, nextId, locale, entries, meta, n).result.Err?
    ensures ImportSpec(rows, nextId, locale, entries, meta, m) == ImportSpec(rows, nextId, locale, entries, meta, n)
    decreases m - n
  {
    if m > n {
      ImportStopsAtError(rows, nextId, locale, entries, meta, n, m - 1);
      assert ImportSpec(rows, nextId, locale, entries, meta, m)
        == ImportNext(ImportSpec(rows, nextId, locale, entries, meta, m - 1), ImportCall(locale, entries[m - 1], m - 1, meta), m);
    }
  }

  /** One pass of the import loop: an error ends the whole import, a success extends it by one entry. */
  lemma ImportLoopStep(rows: Rows, nextId: nat, locale: string, entries: seq<FlatEntry>, meta: ImportMeta, index: nat, prev: Outcome, after: Outcome)
    requires index < |entries|
    requires prev == ImportSpec(rows, nextId, locale, entries, meta, index) && prev.result == Ok(index)
    requires after == UpsertSpec(prev.rows, prev.nextId, ImportCall(locale, entries[index], index, meta))
    ensures after.result.Err? ==> ImportSpec(rows, nextId, locale, entries, meta, |entries|) == after
    ensures after.result.Ok? ==> ImportSpec(rows, nextId, locale, entries, meta, index + 1) == Outcome(after.rows, after.nextId, Ok(index + 1))
  {
    ImportSpecAt(rows, nextId, locale, entries, meta, index + 1);
    if after.result.Err? {
      ImportStopsAtError(rows, nextId, locale, entries, meta, index + 1, |entries|);
    }
  }

  /** The import keeps the table consistent, whether or not it completes. */
  lemma {:induction false} ImportKeepsValid(rows: Rows, nextId: nat, locale: string, entries: seq<FlatEntry>, meta: ImportMeta, n: nat)
    requires n <= |entries| && ValidRows(rows, nextId)
    ensures var o := ImportSpec(rows, nextId, locale, entries, meta, n); ValidRows(o.rows, o.nextId)
  {
    if n > 0 {
      ImportKeepsValid(rows, nextId, locale, entries, meta, n - 1);
      ImportNextKeepsValid(ImportSpec(rows, nextId, locale, entries, meta, n - 1), ImportCall(locale, entries[n - 1], n - 1, meta), n);
    }
  }

  /** No key among the first `n` entries sanitises to the empty key, counted entry by entry. */
  predicate KeysPresent(entries: seq<FlatEntry>, n: nat)
    requires n <= |entries|
  {
    n == 0 || (KeysPresent(entries, n - 1) && SanitizeFullKey(JStr(entries[n - 1].fullKey)) != "")
  }

  /** `KeysPresent` says that no key among the first `n` sanitises to "". */
  lemma {:induction false} KeysPresentAll(entries: seq<FlatEntry>, n: nat)
    requires n <= |entries|
    ensures KeysPresent(entries, n) <==> forall i :: 0 <= i < n ==> SanitizeFullKey(JStr(entries[i].fullKey)) != ""
  {
    if n > 0 {
      KeysPresentAll(entries, n - 1);
    }
  }

  lemma ImportNextOk(prev: Outcome, d: UpsertData, n: nat)
    ensures ImportNext(prev, d, n).result.Ok? <==> prev.result.Ok? && SanitizeFullKey(d.fullKey) != ""
  {
  }

  /** The import of `n` entries: the import of the first `n - 1`, then `ImportNext` on entry `n - 1`. */
  lemma ImportSpecAt(rows: Rows, nextId: nat, locale: string, entries: seq<FlatEntry>, meta: ImportMeta, n: nat)
    requires 0 < n <= |entries|
    ensures ImportSpec(rows, nextId, locale, entries, meta, n)
      == ImportNext(ImportSpec(rows, nextId, locale, entries, meta, n - 1), ImportCall(locale, entries[n - 1], n - 1, meta), n)
  {
  }

  /** Entry `n - 1` succeeds exactly when the import got that far and its key is not empty. */
  lemma ImportStepOk(rows: Rows, nextId: nat, locale: string, entries: seq<FlatEntry>, meta: ImportMeta, n: nat)
    requires 0 < n <= |entries|
    ensures ImportSpec(rows, nextId, locale, entries, meta, n).result.Ok?
      <==> ImportSpec(rows, nextId, locale, entries, meta, n - 1).result.Ok? && SanitizeFullKey(JStr(entries[n - 1].fullKey)) != ""
  {
    var prev := ImportSpec(rows, nextId, locale, entries, meta, n - 1);
    var d := ImportCall(locale, entries[n - 1], n - 1, meta);
    ImportNextOk(prev, d, n);
  }

  /** The import succeeds exactly when no flattened key sanitises to the empty key. */
  lemma {:induction false} ImportSucceeds(rows: Rows, nextId: nat, locale: string, entries: seq<FlatEntry>, meta: ImportMeta, n: nat)
    requires n <= |entries|
    ensures ImportSpec(rows, nextId, locale, entries, meta, n).result.Ok?
      <==> forall i :: 0 <= i < n ==> SanitizeFullKey(JStr(entries[i].fullKey)) != ""
  {
    ImportSucceedsStepwise(rows, nextId, locale, entries, meta, n);
    KeysPresentAll(entries, n);
  }

  lemma {:induction false} ImportSucceedsStepwise(rows: Rows, nextId: nat, locale: string, entries: seq<FlatEntry>, meta: ImportMeta, n: nat)
    requires n <= |entries|
    ensures ImportSpec(rows, nextId, locale, entries, meta, n).result.Ok? <==> KeysPresent(entries, n)
  {
    if n > 0 {
      ImportSucceedsStepwise(rows, nextId, locale, entries, meta, n - 1);
      ImportStepOk(rows, nextId, locale, entries, meta, n);
    }
  }

  /** The sanitised key of an entry, as the upsert stores it. */
  function EntryKey(e: FlatEntry): string
  {
    SanitizeFullKey(JStr(e.fullKey))
  }

  /** The row holding `key` has this sort order and this text for the locale. */
  ghost predicate StoredAt(rows: Rows, key: string, index: int, locale: string, text: string)
  {
    Stored(rows, key, locale) == Some((index, text))
  }

  /** The sort order and the text for `locale` of the row holding `key`, if that row has one. */
  ghost function Stored(rows: Rows, key: string, locale: string): Option<(int, string)>
  {
    match FindKey(rows, key)
    case None => None
    case Some(id) => if locale in rows[id].values then Some((rows[id].sortOrder, rows[id].values[locale])) else None
  }

  /** A successful upsert stores the text under its key, with the sort order it was passed. */
  lemma UpsertStores(rows: Rows, nextId: nat, d: UpsertData)
    requires ValidRows(rows, nextId)
    requires SanitizeFullKey(d.fullKey) != "" && d.sortOrder.Some?
    ensures StoredAt(UpsertSpec(rows, nextId, d).rows, SanitizeFullKey(d.fullKey), d.sortOrder.value, d.locale, LeafText(d.value))
  {
    var o := UpsertSpec(rows, nextId, d);
    UpsertKeepsValid(rows, nextId, d);
    assert o.result.Ok? && o.result.value in o.rows && o.rows[o.result.value].fullKey == SanitizeFullKey(d.fullKey);
    FindKeyUnique(o.rows, o.nextId, SanitizeFullKey(d.fullKey), o.result.value);
  }

  /** An upsert of a different key leaves the row holding `key` as it was. */
  lemma UpsertOtherKey(rows: Rows, nextId: nat, d: UpsertData, key: string, index: int, locale: string, text: string)
    requires ValidRows(rows, nextId)
    requires SanitizeFullKey(d.fullKey) != key
    requires StoredAt(rows, key, index, locale, text)
    ensures StoredAt(UpsertSpec(rows, nextId, d).rows, key, index, locale, text)
  {
    var id := FindKey(rows, key).value;
    var o := UpsertSpec(rows, nextId, d);
    assert o.rows[id] == rows[id];
    UpsertKeepsValid(rows, nextId, d);
    FindKeyUnique(o.rows, o.nextId, key, id);
  }

  /** Upserting a flattened entry stores its text under its key, with its index as sort order. */
  lemma UpsertStoresEntry(rows: Rows, nextId: nat, locale: string, e: FlatEntry, index: nat, meta: ImportMeta)
    requires ValidRows(rows, nextId) && EntryKey(e) != ""
    ensures StoredAt(UpsertSpec(rows, nextId, ImportCall(locale, e, index, meta)).rows, EntryKey(e), index, locale, e.value)
  {
    var d := ImportCall(locale, e, index, meta);
    assert SanitizeFullKey(d.fullKey) == EntryKey(e) && d.sortOrder == Some(index) && LeafText(d.value) == e.value;
    UpsertStores(rows, nextId, d);
  }

  /** Upserting a flattened entry with another key leaves the row holding `key` as it was. */
  lemma UpsertOtherEntry(rows: Rows, nextId: nat, locale: string, e: FlatEntry, index: nat, meta: ImportMeta, key: string, i: int, text: string)
    requires ValidRows(rows, nextId) && EntryKey(e) != key
    requires StoredAt(rows, key, i, locale, text)
    ensures StoredAt(UpsertSpec(rows, nextId, ImportCall(locale, e, index, meta)).rows, key, i, locale, text)
  {
    var d := ImportCall(locale, e, index, meta);
    assert SanitizeFullKey(d.fullKey) == EntryKey(e);
    UpsertOtherKey(rows, nextId, d, key, i, locale, text);
  }

  /** A successful import step stores the entry's text under its key, with its index as sort order. */
  lemma NextStores(prev: Outcome, locale: string, e: FlatEntry, index: nat, meta: ImportMeta, n: nat, o: Outcome)
    requires prev.result.Ok? && ValidRows(prev.rows, prev.nextId) && EntryKey(e) != ""
    requires o == ImportNext(prev, ImportCall(locale, e, index, meta), n)
    ensures StoredAt(o.rows, EntryKey(e), index, locale, e.value)
  {
    UpsertStoresEntry(prev.rows, prev.nextId, locale, e, index, meta);
  }

  /** An import step for another key leaves the row holding `key` as it was. */
  lemma NextKeepsStored(prev: Outcome, locale: string, e: FlatEntry, index: nat, meta: ImportMeta, n: nat, o: Outcome, key: string, i: int, text: string)
    requires prev.result.Ok? && ValidRows(prev.rows, prev.nextId) && EntryKey(e) != key
    requires StoredAt(prev.rows, key, i, locale, text)
    requires o == ImportNext(prev, ImportCall(locale, e, index, meta), n)
    ensures StoredAt(o.rows, key, i, locale, text)
  {
    UpsertOtherEntry(prev.rows, prev.nextId, locale, e, index, meta, key, i, text);
  }

  /** The entry written last is stored under its key with its text and index. */
  lemma ImportPlacesLast(rows: Rows, nextId: nat, locale: string, entries: seq<FlatEntry>, meta: ImportMeta, n: nat)
    requires 0 < n <= |entries| && ValidRows(rows, nextId)
    requires ImportSpec(rows, nextId, locale, entries, meta, n).result.Ok?
    ensures StoredAt(ImportSpec(rows, nextId, locale, entries, meta, n).rows, EntryKey(entries[n - 1]), n - 1, locale, entries[n - 1].value)
  {
    ImportStepOk(rows, nextId, locale, entries, meta, n);
    ImportKeepsValid(rows, nextId, locale, entries, meta, n - 1);
    StepStores(rows, nextId, locale, entries, meta, n);
  }

  /** Entry `n - 1`, imported onto a consistent table, is stored under its key with its text and index. */
  lemma StepStores(rows: Rows, nextId: nat, locale: string, entries: seq<FlatEntry>, meta: ImportMeta, n: nat)
    requires 0 < n <= |entries| && EntryKey(entries[n - 1]) != ""
    requires ImportSpec(rows, nextId, locale, entries, meta, n - 1).result.Ok?
    requires var prev := ImportSpec(rows, nextId, locale, entries, meta, n - 1); ValidRows(prev.rows, prev.nextId)
    ensures StoredAt(ImportSpec(rows, nextId, locale, entries, meta, n).rows, EntryKey(entries[n - 1]), n - 1, locale, entries[n - 1].value)
  {
    ImportSpecAt(rows, nextId, locale, entries, meta, n);
    NextStores(ImportSpec(rows, nextId, locale, entries, meta, n - 1), locale, entries[n - 1], n - 1, meta, n,
      ImportSpec(rows, nextId, locale, entries, meta, n));
  }

  /**
   * After a successful import, an entry that no later entry overrides is
   * stored under its key with its text for the locale and its index as
   * sort order.
   */
  lemma {:induction false} ImportPlacesEntry(rows: Rows, nextId: nat, locale: string, entries: seq<FlatEntry>, meta: ImportMeta, n: nat, i: nat)
    requires i < n <= |entries| && ValidRows(rows, nextId)
    requires forall j :: i < j < n ==> EntryKey(entries[j]) != EntryKey(entries[i])
    requires ImportSpec(rows, nextId, locale, entries, meta, n).result.Ok?
    ensures StoredAt(ImportSpec(rows, nextId, locale, entries, meta, n).rows, EntryKey(entries[i]), i, locale, entries[i].value)
    decreases n, 1
  {
    if i == n - 1 {
      ImportPlacesLast(rows, nextId, locale, entries, meta, n);
    } else {
      ImportPlacesEarlier(rows, nextId, locale, entries, meta, n, i);
    }
  }

  /** An earlier entry stays stored when the entry written last has another key. */
  lemma {:induction false} ImportPlacesEarlier(rows: Rows, nextId: nat, locale: string, entries: seq<FlatEntry>, meta: ImportMeta, n: nat, i: nat)
    requires i < n - 1 && n <= |entries| && ValidRows(rows, nextId)
    requires forall j :: i < j < n ==> EntryKey(entries[j]) != EntryKey(entries[i])
    requires ImportSpec(rows, nextId, locale, entries, meta, n).result.Ok?
    ensures StoredAt(ImportSpec(rows, nextId, locale, entries, meta, n).rows, EntryKey(entries[i]), i, locale, entries[i].value)
    decreases n, 0
  {
    ImportStepOk(rows, nextId, locale, entries, meta, n);
    ImportPlacesEntry(rows, nextId, locale, entries, meta, n - 1, i);
    ImportKeepsStored(rows, nextId, locale, entries, meta, n, EntryKey(entries[i]), i, entries[i].value);
  }

  /** A row stored before entry `n - 1` is written stays stored when that entry has another key. */
  lemma ImportKeepsStored(rows: Rows, nextId: nat, locale: string, entries: seq<FlatEntry>, meta: ImportMeta, n: nat, key: string, i: int, text: string)
    requires 0 < n <= |entries| && ValidRows(rows, nextId)
    requires ImportSpec(rows, nextId, locale, entries, meta, n).result.Ok?
    requires EntryKey(entries[n - 1]) != key
    requires StoredAt(ImportSpec(rows, nextId, locale, entries, meta, n - 1).rows, key, i, locale, text)
    ensures StoredAt(ImportSpec(rows, nextId, locale, entries, meta, n).rows, key, i, locale, text)
  {
    ImportStepOk(rows, nextId, locale, entries, meta, n);
    ImportKeepsValid(rows, nextId, locale, entries, meta, n - 1);
    StepKeepsStored(rows, nextId, locale, entries, meta, n, key, i, text);
  }

  /** Entry `n - 1`, imported onto a consistent table, leaves the row holding another key as it was. */
  lemma StepKeepsStored(rows: Rows, nextId: nat, locale: string, entries: seq<FlatEntry>, meta: ImportMeta, n: nat, key: string, i: int, text: string)
    requires 0 < n <= |entries| && EntryKey(entries[n - 1]) != key
    requires ImportSpec(rows, nextId, locale, entries, meta, n - 1).result.Ok?
    requires var prev := ImportSpec(rows, nextId, locale, entries, meta, n - 1); ValidRows(prev.rows, prev.nextId)
    requires StoredAt(ImportSpec(rows, nextId, locale, entries, meta, n - 1).rows, key, i, locale, text)
    ensures StoredAt(ImportSpec(rows, nextId, locale, entries, meta, n).rows, key, i, locale, text)
  {
    ImportSpecAt(rows, nextId, locale, entries, meta, n);
    NextKeepsStored(ImportSpec(rows, nextId, locale, entries, meta, n - 1), locale, entries[n - 1], n - 1, meta, n,
      ImportSpec(rows, nextId, locale, entries, meta, n), key, i, text);
  }

  // ---------------------------------------------------------------------
  // exportLocale
  // ---------------------------------------------------------------------

  /** The segments of a full key: split on dots, trimmed, the empty ones dropped. */
  function KeySegments(fullKey: string): seq<string>
  {
    TrimmedNonEmpty(Split(fullKey, '.'))
  }

  /** One iteration of the export loop. */
  function ExportStep(tree: Tree, e: Entry, locale: string): Tree
  {
    if locale !in e.values then tree
    else
      var segments := KeySegments(e.fullKey);
      if segments == [] then tree else AssignToTree(Some(tree), segments, e.values[locale])
  }

  /** The tree `exportLocale` builds from the rows in the order given. */
  function ExportFold(listing: seq<Entry>, locale: string): Tree
  {
    if listing == [] then TObj([])
    else ExportStep(ExportFold(listing[..|listing| - 1], locale), listing[|listing| - 1], locale)
  }

  /** Rows without the locale, or whose key has no non-blank segment, change nothing. */
  lemma ExportSkips(listing: seq<Entry>, e: Entry, locale: string)
    requires locale !in e.values || KeySegments(e.fullKey) == []
    ensures ExportFold(listing + [e], locale) == ExportFold(listing, locale)
  {
    assert (listing + [e])[..|listing|] == listing;
  }

  /** The rows after position `i` that the export writes do not reach the path of row `i`. */
  predicate LaterDiverge(listing: seq<Entry>, i: nat, locale: string)
    requires i < |listing|
  {
    forall j :: i < j < |listing| && locale in listing[j].values && KeySegments(listing[j].fullKey) != [] ==>
      Diverge(KeySegments(listing[i].fullKey), KeySegments(listing[j].fullKey))
  }

  /**
   * The exported tree holds a row's text for the locale at the segments of
   * its key, unless a row exported after it writes to that path or above it.
   */
  lemma {:induction false} ExportPlacesRow(listing: seq<Entry>, i: nat, locale: string)
    requires i < |listing| && locale in listing[i].values && KeySegments(listing[i].fullKey) != []
    requires LaterDiverge(listing, i, locale)
    ensures Get(Some(ExportFold(listing, locale)), KeySegments(listing[i].fullKey)) == Some(TLeaf(listing[i].values[locale]))
    decreases |listing|
  {
    var last := |listing| - 1;
    var init := listing[..last];
    var path := KeySegments(listing[i].fullKey);
    if i == last {
      AssignThenGet(Some(ExportFold(init, locale)), path, listing[i].values[locale]);
    } else {
      assert init[i] == listing[i];
      assert LaterDiverge(init, i, locale) by {
        forall j | i < j < |init| && locale in init[j].values && KeySegments(init[j].fullKey) != []
          ensures Diverge(path, KeySegments(init[j].fullKey))
        {
          assert init[j] == listing[j];
        }
      }
      ExportPlacesRow(init, i, locale);
      var e := listing[last];
      if locale in e.values && KeySegments(e.fullKey) != [] {
        var q := KeySegments(e.fullKey);
        assert Diverge(path, q);
        var k :| 0 <= k < |path| && k < |q| && path[..k] == q[..k] && Apart(path[k], q[k]);
        AssignKeepsGet(Some(ExportFold(init, locale)), q, e.values[locale], path, k);
      }
    }
  }

  /** A path joined with dots under the empty prefix, one more segment at a time. */
  lemma {:induction false} JoinPrefixSnoc(prefix: string, path: seq<string>, k: string)
    ensures JoinPrefix(prefix, path + [k]) == NextPrefix(JoinPrefix(prefix, path), k)
    decreases |path|
  {
    if path == [] {
      assert ([] + [k])[1..] == [];
    } else {
      assert (path + [k])[1..] == path[1..] + [k];
      JoinPrefixSnoc(NextPrefix(prefix, path[0]), path[1..], k);
    }
  }

  /** Clean segments joined with dots split back into the same segments, and the key has no whitespace. */
  lemma {:induction false} SplitJoined(path: seq<string>)
    requires path != [] && CleanSegments(path)
    ensures Split(JoinPrefix("", path), '.') == path
    ensures NoWhitespace(JoinPrefix("", path)) && JoinPrefix("", path) != ""
    decreases |path|
  {
    var init, k := path[..|path| - 1], path[|path| - 1];
    assert path == init + [k];
    JoinPrefixSnoc("", init, k);
    if init == [] {
      assert JoinPrefix("", init) == "";
      SplitNoSeparator(k, '.');
    } else {
      SplitJoined(init);
      var j := JoinPrefix("", init);
      assert JoinPrefix("", path) == j + "." + k;
      SplitAppendPiece(j, '.', k);
      assert j + "." + k == j + ['.'] + k;
      assert NoWhitespace(j + "." + k) by {
        forall c | 0 <= c < |j + "." + k| ensures !IsWhitespace((j + "." + k)[c]) {
          if c < |j| { assert (j + "." + k)[c] == j[c]; }
          else if c > |j| { assert (j + "." + k)[c] == k[c - |j| - 1]; }
        }
      }
    }
  }

  /** The key an import stores for a clean path reads back as that path. */
  lemma KeySegmentsOfJoined(path: seq<string>)
    requires CleanSegments(path)
    ensures SanitizeFullKey(JStr(JoinPrefix("", path))) == JoinPrefix("", path)
    ensures KeySegments(JoinPrefix("", path)) == path
  {
    if path == [] {
      TrimmedNonEmptyOne("");
    } else {
      SplitJoined(path);
      SanitizeOfClean(JoinPrefix("", path));
      forall i | 0 <= i < |path| ensures Trimmed(path[i]) {
        assert !IsWhitespace(path[i][0]) && !IsWhitespace(path[i][|path[i]| - 1]);
      }
      TrimmedNonEmptyOfClean(path);
    }
  }

  /**
   * The listing `ORDER BY sort_order ASC, full_key ASC` returns: every row
   * exactly once, sort orders ascending. Ties are left to the database
   * collation and may come in any order here.
   */
  predicate ExportOrder(rows: Rows, order: seq<nat>)
  {
    (forall i :: 0 <= i < |order| ==> order[i] in rows)
    && (forall i, j :: 0 <= i < j < |order| ==> order[i] != order[j])
    && (forall id :: id in rows ==> id in order)
    && (forall i, j :: 0 <= i < j < |order| && order[i] in rows && order[j] in rows ==>
          rows[order[i]].sortOrder <= rows[order[j]].sortOrder)
  }

  function Listing(rows: Rows, order: seq<nat>): (l: seq<Entry>)
    requires forall i :: 0 <= i < |order| ==> order[i] in rows
    ensures |l| == |order|
  {
    seq(|order|, i requires 0 <= i < |order| && order[i] in rows => rows[order[i]])
  }

  /**
   * The export of a table holds a row's text for the locale at the segments
   * of its key, unless a row listed after it writes to that path or above it.
   */
  lemma TableExportPlaces(rows: Rows, order: seq<nat>, id: nat, locale: string)
    requires ExportOrder(rows, order) && id in rows
    requires locale in rows[id].values && KeySegments(rows[id].fullKey) != []
    requires forall a, b ::
      (0 <= a < b < |order| && order[a] == id
       && locale in rows[order[b]].values && KeySegments(rows[order[b]].fullKey) != []) ==>
        Diverge(KeySegments(rows[id].fullKey), KeySegments(rows[order[b]].fullKey))
    ensures Get(Some(ExportFold(Listing(rows, order), locale)), KeySegments(rows[id].fullKey))
      == Some(TLeaf(rows[id].values[locale]))
  {
    var a :| 0 <= a < |order| && order[a] == id;
    var listing := Listing(rows, order);
    assert listing[a] == rows[id];
    assert LaterDiverge(listing, a, locale) by {
      forall j | a < j < |listing| && locale in listing[j].values && KeySegments(listing[j].fullKey) != []
        ensures Diverge(KeySegments(listing[a].fullKey), KeySegments(listing[j].fullKey))
      {
        assert listing[j] == rows[order[j]];
      }
    }
    ExportPlacesRow(listing, a, locale);
  }

  /**
   * Import, then export: after a successful import of a payload, a leaf
   * whose path segments are clean and that no later leaf overrides is
   * exported at its own path with its text, unless a row listed after it
   * writes to that path or above it.
   */
  lemma ImportThenExport(rows: Rows, nextId: nat, locale: string, data: Json, meta: ImportMeta, o: Outcome, order: seq<nat>, i: nat)
    requires ValidRows(rows, nextId) && IsContainer(data)
    requires o == ImportSpec(rows, nextId, locale, Flatten(data, ""), meta, |Flatten(data, "")|) && o.result.Ok?
    requires i < |Leaves(data)| && CleanSegments(Leaves(data)[i].path)
    requires forall j :: i < j < |Flatten(data, "")| ==> EntryKey(Flatten(data, "")[j]) != JoinPrefix("", Leaves(data)[i].path)
    requires ExportOrder(o.rows, order)
    requires forall a, b ::
      (0 <= a < b < |order| && o.rows[order[a]].fullKey == JoinPrefix("", Leaves(data)[i].path)
       && locale in o.rows[order[b]].values && KeySegments(o.rows[order[b]].fullKey) != []) ==>
        Diverge(Leaves(data)[i].path, KeySegments(o.rows[order[b]].fullKey))
    ensures Get(Some(ExportFold(Listing(o.rows, order), locale)), Leaves(data)[i].path) == Some(TLeaf(Leaves(data)[i].text))
  {
    var entries := Flatten(data, "");
    var leaf := Leaves(data)[i];
    var key := JoinPrefix("", leaf.path);
    FlattenIsLeaves(data, "");
    assert entries[i].fullKey == key && entries[i].value == leaf.text;
    KeySegmentsOfJoined(leaf.path);
    assert EntryKey(entries[i]) == key;
    ImportPlacesEntry(rows, nextId, locale, entries, meta, |entries|, i);
    var id := FindKey(o.rows, key).value;
    assert o.rows[id].fullKey == key && o.rows[id].values[locale] == leaf.text;
    TableExportPlaces(o.rows, order, id, locale);
  }

  /** Some entry among the first `n` sanitises to `key`. */
  ghost predicate KeyAmong(key: string, entries: seq<FlatEntry>, n: nat)
    requires n <= |entries|
  {
    exists j :: 0 <= j < n && EntryKey(entries[j]) == key
  }

  /** Every row of `after` is a row of `rows` under its old key, or holds the key of one of the first `n` entries. */
  ghost predicate RowKeysFrom(after: Rows, rows: Rows, entries: seq<FlatEntry>, n: nat)
    requires n <= |entries|
  {
    forall id :: id in after ==>
      (id in rows && after[id].fullKey == rows[id].fullKey) || KeyAmong(after[id].fullKey, entries, n)
  }

  /** One upsert of the import writes no row under a key other than its own. */
  lemma NextRowKeys(prev: Outcome, d: UpsertData, n: nat, o: Outcome)
    requires o == ImportNext(prev, d, n)
    ensures forall id :: id in o.rows ==>
      (id in prev.rows && o.rows[id].fullKey == prev.rows[id].fullKey) || o.rows[id].fullKey == SanitizeFullKey(d.fullKey)
  {
  }

  /** The rows after an import are the rows before it, under their keys, and rows holding imported keys. */
  lemma {:induction false} ImportRowKeys(rows: Rows, nextId: nat, locale: string, entries: seq<FlatEntry>, meta: ImportMeta, n: nat)
    requires n <= |entries|
    ensures RowKeysFrom(ImportSpec(rows, nextId, locale, entries, meta, n).rows, rows, entries, n)
  {
    if n > 0 {
      ImportRowKeys(rows, nextId, locale, entries, meta, n - 1);
      StepRowKeys(rows, nextId, locale, entries, meta, n);
    }
  }

  lemma StepRowKeys(rows: Rows, nextId: nat, locale: string, entries: seq<FlatEntry>, meta: ImportMeta, n: nat)
    requires 0 < n <= |entries|
    requires RowKeysFrom(ImportSpec(rows, nextId, locale, entries, meta, n - 1).rows, rows, entries, n - 1)
    ensures RowKeysFrom(ImportSpec(rows, nextId, locale, entries, meta, n).rows, rows, entries, n)
  {
    ImportSpecAt(rows, nextId, locale, entries, meta, n);
    var prev := ImportSpec(rows, nextId, locale, entries, meta, n - 1);
    var o := ImportSpec(rows, nextId, locale, entries, meta, n);
    NextRowKeys(prev, ImportCall(locale, entries[n - 1], n - 1, meta), n, o);
    forall id | id in o.rows
      ensures (id in rows && o.rows[id].fullKey == rows[id].fullKey) || KeyAmong(o.rows[id].fullKey, entries, n)
    {
      if id in prev.rows && o.rows[id].fullKey == prev.rows[id].fullKey {
        if !(id in rows && prev.rows[id].fullKey == rows[id].fullKey) {
          var j :| 0 <= j < n - 1 && EntryKey(entries[j]) == prev.rows[id].fullKey;
        }
      } else {
        assert EntryKey(entries[n - 1]) == o.rows[id].fullKey;
      }
    }
  }

  lemma DivergeDistinct(p: seq<string>, q: seq<string>)
    requires Diverge(p, q)
    ensures p != q
  {
    var k :| 0 <= k < |p| && k < |q| && p[..k] == q[..k] && Apart(p[k], q[k]);
  }

  /** The facts about a well-keyed payload's entries that the round trip rests on. */
  ghost predicate KeyedEntries(ls: seq<Leaf>, entries: seq<FlatEntry>)
  {
    |entries| == |ls| && PathsDiverge(ls)
    && forall j :: 0 <= j < |ls| ==>
      (CleanSegments(ls[j].path) && EntryKey(entries[j]) == JoinPrefix("", ls[j].path)
       && KeySegments(JoinPrefix("", ls[j].path)) == ls[j].path)
  }

  /** Two different entries of a well-keyed payload have diverging paths. */
  lemma KeyedDiverge(ls: seq<Leaf>, entries: seq<FlatEntry>, i: nat, j: nat)
    requires KeyedEntries(ls, entries) && i < |ls| && j < |ls| && i != j
    ensures Diverge(ls[i].path, ls[j].path)
  {
    if j < i {
      DivergeSymmetric(ls[j].path, ls[i].path);
    }
  }

  /** No later entry of a well-keyed payload shares the key of leaf `i`. */
  lemma KeyedLaterKeys(ls: seq<Leaf>, entries: seq<FlatEntry>, i: nat)
    requires KeyedEntries(ls, entries) && i < |ls|
    ensures forall j :: i < j < |entries| ==> EntryKey(entries[j]) != JoinPrefix("", ls[i].path)
  {
    forall j | i < j < |entries| ensures EntryKey(entries[j]) != JoinPrefix("", ls[i].path) {
      KeyedDiverge(ls, entries, i, j);
      DivergeDistinct(ls[i].path, ls[j].path);
    }
  }

  /** In a table whose rows all hold keys of a well-keyed payload's entries, the row of leaf `i` diverges from every other row. */
  lemma KeyedRowsDiverge(rows: Rows, nextId: nat, ls: seq<Leaf>, entries: seq<FlatEntry>, order: seq<nat>, locale: string, i: nat)
    requires KeyedEntries(ls, entries) && i < |ls|
    requires ValidRows(rows, nextId) && RowKeysFrom(rows, map[], entries, |entries|) && ExportOrder(rows, order)
    ensures forall a, b ::
      (0 <= a < b < |order| && rows[order[a]].fullKey == JoinPrefix("", ls[i].path)
       && locale in rows[order[b]].values && KeySegments(rows[order[b]].fullKey) != []) ==>
        Diverge(ls[i].path, KeySegments(rows[order[b]].fullKey))
  {
    forall a, b |
      (0 <= a < b < |order| && rows[order[a]].fullKey == JoinPrefix("", ls[i].path)
       && locale in rows[order[b]].values && KeySegments(rows[order[b]].fullKey) != [])
      ensures Diverge(ls[i].path, KeySegments(rows[order[b]].fullKey))
    {
      RowOfEntry(rows, entries, order[b]);
      var j :| 0 <= j < |entries| && EntryKey(entries[j]) == rows[order[b]].fullKey;
      assert KeyAt(rows, order[a]) != KeyAt(rows, order[b]);
      KeyedDiverge(ls, entries, i, j);
    }
  }

  lemma RowOfEntry(rows: Rows, entries: seq<FlatEntry>, id: nat)
    requires RowKeysFrom(rows, map[], entries, |entries|) && id in rows
    ensures KeyAmong(rows[id].fullKey, entries, |entries|)
  {
  }

  /** Import into an empty table, then export: one leaf of a well-keyed payload. */
  lemma FreshLeafExported(locale: string, data: Json, meta: ImportMeta, o: Outcome, order: seq<nat>, i: nat)
    requires IsContainer(data) && KeyedEntries(Leaves(data), Flatten(data, ""))
    requires o == ImportSpec(map[], 1, locale, Flatten(data, ""), meta, |Flatten(data, "")|) && o.result.Ok?
    requires ValidRows(o.rows, o.nextId) && RowKeysFrom(o.rows, map[], Flatten(data, ""), |Flatten(data, "")|)
    requires ExportOrder(o.rows, order) && i < |Leaves(data)|
    ensures Get(Some(ExportFold(Listing(o.rows, order), locale)), Leaves(data)[i].path) == Some(TLeaf(Leaves(data)[i].text))
  {
    KeyedLaterKeys(Leaves(data), Flatten(data, ""), i);
    KeyedRowsDiverge(o.rows, o.nextId, Leaves(data), Flatten(data, ""), order, locale, i);
    ImportThenExport(map[], 1, locale, data, meta, o, order, i);
  }

  /**
   * Import into an empty table, then export: a well-keyed payload imports
   * without error, and the export holds every one of its leaves at its own
   * path with its text, whichever way rows of equal sort order are listed.
   */
  lemma FreshImportThenExport(locale: string, data: Json, meta: ImportMeta, o: Outcome, order: seq<nat>)
    requires IsContainer(data) && WellKeyed(data)
    requires o == ImportSpec(map[], 1, locale, Flatten(data, ""), meta, |Flatten(data, "")|)
    requires ExportOrder(o.rows, order)
    ensures o.result.Ok?
    ensures forall i :: 0 <= i < |Leaves(data)| ==>
      Get(Some(ExportFold(Listing(o.rows, order), locale)), Leaves(data)[i].path) == Some(TLeaf(Leaves(data)[i].text))
  {
    var entries, ls := Flatten(data, ""), Leaves(data);
    FlattenIsLeaves(data, "");
    LeavesWellKeyed(data);
    forall j | 0 <= j < |ls|
      ensures EntryKey(entries[j]) == JoinPrefix("", ls[j].path) && JoinPrefix("", ls[j].path) != ""
      ensures KeySegments(JoinPrefix("", ls[j].path)) == ls[j].path
    {
      assert entries[j].fullKey == JoinPrefix("", ls[j].path);
      KeySegmentsOfJoined(ls[j].path);
      SplitJoined(ls[j].path);
    }
    assert KeyedEntries(ls, entries);
    ImportSucceeds(map[], 1, locale, entries, meta, |entries|);
    ImportKeepsValid(map[], 1, locale, entries, meta, |entries|);
    ImportRowKeys(map[], 1, locale, entries, meta, |entries|);
    forall i | 0 <= i < |ls|
      ensures Get(Some(ExportFold(Listing(o.rows, order), locale)), ls[i].path) == Some(TLeaf(ls[i].text))
    {
      FreshLeafExported(locale, data, meta, o, order, i);
    }
  }

  // ---------------------------------------------------------------------
  // The table
  // ---------------------------------------------------------------------

  /** The `translations` table, one request at a time. */
  class TranslationTable {
    var rows: Rows
    var nextId: nat

    ghost predicate Valid()
      reads this
    {
      ValidRows(rows, nextId)
    }

    constructor ()
      ensures Valid() && rows == map[] && nextId == 1
    {
      rows := map[];
      nextId := 1;
    }

    /** The id of the row holding `key`, found by scanning the table. */
    method FindId(key: string) returns (found: Option<nat>)
      requires Valid()
      ensures found == FindKey(rows, key)
    {
      if exists id :: id in rows && rows[id].fullKey == key {
        var id :| id in rows && rows[id].fullKey == key;
        FindKeyUnique(rows, nextId, key, id);
        found := Some(id);
      } else {
        found := None;
      }
    }

    /** `findByFullKey` */
    method FindByFullKey(fullKey: Json) returns (e: Option<Entry>)
      requires Valid()
      ensures e == Lookup(rows, fullKey)
    {
      var key := SanitizeFullKey(fullKey);
      if key == "" {
        return None;
      }
      var found := FindId(key);
      if found.Some? {
        e := Some(rows[found.value]);
      } else {
        e := None;
      }
    }

    /** `create` */
    method Create(data: CreateData) returns (result: Result<nat>)
      requires Valid()
      modifies this
      ensures Valid()
      ensures Outcome(rows, nextId, result) == CreateSpec(old(rows), old(nextId), data)
    {
      var key := SanitizeFullKey(data.fullKey);
      if key == "" {
        return Err(FullKeyRequired);
      }
      if HasKey(rows, key) {
        return Err(DuplicateEntry);
      }
      var values := NormalizeLocaleValues(data.values);
      var e := Entry(nextId, NamespaceColumn(data.namespace), key, OrNull(data.labelText),
        OrNull(data.description), OrDefault(data.sortOrder, 0), values,
        OrNull(data.updatedBy), OrNullInt(data.updatedById));
      PutKeepsValid(rows, nextId, nextId, e, nextId + 1);
      rows := rows[nextId := e];
      result := Ok(nextId);
      nextId := nextId + 1;
    }

    /** `update` */
    method Update(id: nat, data: UpdateData) returns (result: Result<bool>)
      requires Valid()
      modifies this
      ensures Valid() && nextId == old(nextId)
      ensures (rows, result) == UpdateSpec(old(rows), id, data)
    {
      if !HasFields(data) {
        return Ok(false);
      }
      if id !in rows {
        return Ok(true);
      }
      var e := Patched(rows[id], data);
      if exists other :: other in rows && other != id && rows[other].fullKey == e.fullKey {
        return Err(DuplicateEntry);
      }
      PutKeepsValid(rows, nextId, id, e, nextId);
      rows := rows[id := e];
      result := Ok(true);
    }

    /** `delete` */
    method Delete(id: nat)
      requires Valid()
      modifies this
      ensures Valid() && nextId == old(nextId)
      ensures rows == old(rows) - {id}
    {
      RemoveKeepsValid(rows, nextId, id);
      rows := rows - {id};
    }

    /** `upsertLocaleEntry` */
    method UpsertLocaleEntry(d: UpsertData) returns (result: Result<nat>)
      requires Valid()
      modifies this
      ensures Valid()
      ensures Outcome(rows, nextId, result) == UpsertSpec(old(rows), old(nextId), d)
    {
      var cleanKey := SanitizeFullKey(d.fullKey);
      if cleanKey == "" {
        return Err(FullKeyRequired);
      }
      UpsertKeepsValid(rows, nextId, d);
      var normalizedValue := LeafText(d.value);
      var existing := FindId(cleanKey);
      if existing.Some? {
        var id := existing.value;
        rows := rows[id := Merged(rows[id], d)];
        return Ok(id);
      }
      rows := rows[nextId := Fresh(nextId, cleanKey, d)];
      result := Ok(nextId);
      nextId := nextId + 1;
    }

    /** `importLocale`: flatten, then upsert each entry with its index as sort order. */
    method ImportLocale(locale: string, payload: Json, meta: ImportMeta) returns (result: Result<nat>)
      requires Valid()
      modifies this
      ensures Valid()
      ensures Outcome(rows, nextId, result)
        == ImportSpec(old(rows), old(nextId), locale, Flatten(payload, ""), meta, |Flatten(payload, "")|)
    {
      var entries := FlattenPayload(payload, "");
      var successCount := 0;
      var index := 0;
      while index < |entries|
        invariant 0 <= index <= |entries| && successCount == index
        invariant Valid()
        invariant Outcome(rows, nextId, Ok(successCount)) == ImportSpec(old(rows), old(nextId), locale, entries, meta, index)
      {
        ghost var prev := Outcome(rows, nextId, Ok(successCount));
        var r := UpsertLocaleEntry(ImportCall(locale, entries[index], index, meta));
        ImportLoopStep(old(rows), old(nextId), locale, entries, meta, index, prev, Outcome(rows, nextId, r));
        if r.Err? {
          return Err(r.error);
        }
        successCount := successCount + 1;
        index := index + 1;
      }
      result := Ok(successCount);
    }

    /**
     * `exportLocale`, given the listing the database returns for
     * `ORDER BY sort_order ASC, full_key ASC`.
     */
    method ExportLocale(locale: string, order: seq<nat>) returns (tree: Tree)
      requires ExportOrder(rows, order)
      ensures tree == ExportFold(Listing(rows, order), locale)
    {
      var listing := Listing(rows, order);
      tree := TObj([]);
      var i := 0;
      while i < |listing|
        invariant 0 <= i <= |listing|
        invariant tree == ExportFold(listing[..i], locale)
      {
        var row := listing[i];
        assert listing[..i + 1][..i] == listing[..i];
        if locale in row.values {
          var val := row.values[locale];
          var segments := KeySegments(row.fullKey);
          if segments != [] {
            tree := AssignToTree(Some(tree), segments, val);
          }
        }
        i := i + 1;
      }
      assert listing[..i] == listing;
    }
  }
}
