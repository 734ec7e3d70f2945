/** The kindergartens model: status whitelist, row mapping and list queries. */
module KindergartenModel {
  import opened JsRuntime
  import opened Normalizers

  /** `normalizeStatus`: only 'disabled' survives; everything else is enabled. */
  function NormalizeStatus(value: Json): (r: string)
    ensures r == "disabled" || r == "enabled"
    ensures r == "disabled" <==> value == JStr("disabled")
  {
    if value == JStr("disabled") then "disabled" else "enabled"
  }

  /** A database row as the driver hands it over, or an already mapped object. */
  datatype RawRow = RawRow(
    id: Json, name: Json, name_en: Json, nameEn: Json, address: Json,
    address_en: Json, addressEn: Json, logo: Json, sort_order: Json, sortOrder: Json,
    status: Json, created_at: Json, createdAt: Json, updated_at: Json, updatedAt: Json)

  datatype Kindergarten = Kindergarten(
    id: Json, name: Json, nameEn: Json, address: Json, addressEn: Json, logo: Json,
    sortOrder: int, status: Json, createdAt: Json, updatedAt: Json)

  /**
   * `mapRow`: no row gives no object; otherwise each camel-case field takes
   * the snake-case column unless that is null or undefined, and the sort
   * order is always an integer (0 when it does not parse).
   */
  function MapRow(row: Option<RawRow>): (k: Option<Kindergarten>)
    ensures k.None? <==> row.None?
    ensures row.Some? ==> var r := row.value;
      k.value.id == r.id && k.value.name == r.name && k.value.address == r.address
      && k.value.logo == r.logo && k.value.status == r.status
    ensures row.Some? ==> var r := row.value;
      k.value.nameEn == Coalesce(r.name_en, r.nameEn) && k.value.addressEn == Coalesce(r.address_en, r.addressEn)
      && k.value.createdAt == Coalesce(r.created_at, r.createdAt) && k.value.updatedAt == Coalesce(r.updated_at, r.updatedAt)
    ensures row.Some? ==> k.value.sortOrder == NormalizeSortOrder(Coalesce(row.value.sort_order, row.value.sortOrder))
  {
    match row
    case None => None
    case Some(r) =>
      Some(Kindergarten(
        r.id, r.name, Coalesce(r.name_en, r.nameEn), r.address,
        Coalesce(r.address_en, r.addressEn), r.logo,
        NormalizeSortOrder(Coalesce(r.sort_order, r.sortOrder)), r.status,
        Coalesce(r.created_at, r.createdAt), Coalesce(r.updated_at, r.updatedAt)))
  }

  /** A row whose snake-case columns are set is read from them; the camel-case fields are then ignored. */
  lemma MapRowPrefersColumns(r: RawRow)
    requires !IsNullish(r.name_en) && !IsNullish(r.address_en) && !IsNullish(r.sort_order)
    requires !IsNullish(r.created_at) && !IsNullish(r.updated_at)
    ensures var k := MapRow(Some(r)).value;
      k.nameEn == r.name_en && k.addressEn == r.address_en && k.createdAt == r.created_at
      && k.updatedAt == r.updated_at && (ParseInt(r.sort_order).Some? ==> k.sortOrder == ParseInt(r.sort_order).value)
  {
  }

  /** The row an already mapped object stands for: camel-case fields only, snake-case columns undefined. */
  function AsRow(k: Kindergarten): RawRow
  {
    RawRow(k.id, k.name, JUndef, k.nameEn, k.address, JUndef, k.addressEn, k.logo, JUndef, JNum(k.sortOrder),
      k.status, JUndef, k.createdAt, JUndef, k.updatedAt)
  }

  /** Mapping an already mapped object gives it back unchanged. */
  lemma MapRowOfMapped(k: Kindergarten)
    ensures MapRow(Some(AsRow(k))) == Some(k)
  {
    ParseIntOfNumber(k.sortOrder);
  }

  datatype KindergartenQuery = KindergartenQuery(window: Window, keyword: Option<string>, status: Option<string>)

  /** `findAll`: shared window, keyword filter when non-blank, status filter only for the two statuses. */
  function FindAll(page: Json, limit: Json, keyword: Json, status: Json): (q: KindergartenQuery)
    ensures ValidWindow(q.window, MaxLimit) && q.window == ContentWindow(page, limit)
    ensures q.keyword.Some? <==> keyword.JStr? && Trim(keyword.s) != ""
    ensures q.status.Some? <==> status == JStr("enabled") || status == JStr("disabled")
    ensures q.status.Some? ==> JStr(q.status.value) == status
  {
    var st := if status == JStr("enabled") || status == JStr("disabled") then Some(status.s) else None;
    KindergartenQuery(ContentWindow(page, limit), KeywordFilter(keyword), st)
  }

  /**
   * `findPublished`: only enabled rows, at most `limit` of them, where the
   * limit falls back to and never exceeds 100. `rows` is the ordered table.
   */
  function FindPublished(rows: seq<Kindergarten>, limit: Json): (out: seq<Kindergarten>)
    ensures |out| <= MaxLimit
    ensures forall i :: 0 <= i < |out| ==> out[i].status == JStr("enabled")
    ensures forall i :: 0 <= i < |out| ==> out[i] in rows
    ensures |out| == Min(|Enabled(rows)|, NormalizeLimit(limit, MaxLimit))
    ensures out == Enabled(rows)[..|out|]
  {
    var n := NormalizeLimit(limit, MaxLimit);
    var enabled := Enabled(rows);
    if |enabled| <= n then enabled else enabled[..n]
  }

  /** The rows with status 'enabled', in table order. */
  function Enabled(rows: seq<Kindergarten>): (out: seq<Kindergarten>)
    ensures |out| <= |rows|
    ensures forall i :: 0 <= i < |out| ==> out[i].status == JStr("enabled") && out[i] in rows
    ensures forall x :: x in rows && x.status == JStr("enabled") ==> x in out
  {
    if rows == [] then []
    else
      var rest := Enabled(rows[..|rows| - 1]);
      var last := rows[|rows| - 1];
      assert rows == rows[..|rows| - 1] + [last];
      if last.status == JStr("enabled") then rest + [last] else rest
  }

  /** One more row at the end of the table adds it to the enabled rows exactly when it is enabled, so the order is the table's. */
  lemma {:induction false} EnabledAppend(rows: seq<Kindergarten>, x: Kindergarten)
    ensures Enabled(rows + [x]) == Enabled(rows) + (if x.status == JStr("enabled") then [x] else [])
  {
    assert (rows + [x])[..|rows + [x]| - 1] == rows;
  }
}
