/** The events model: status whitelist, list query, and the date guard of create/update. */
module EventModel {
  import opened JsRuntime
  import opened Normalizers

  /** `normalizeStatus`: only 'published' survives; everything else is a draft. */
  function NormalizeStatus(value: Json): (r: string)
    ensures r == "published" || r == "draft"
    ensures r == "published" <==> value == JStr("published")
  {
    if value == JStr("published") then "published" else "draft"
  }

  /** The parameters `findAll` issues its queries with. */
  datatype EventQuery = EventQuery(window: Window, keyword: Option<string>, status: Option<string>)

  /**
   * `findAll`: the window from the shared normalisers, a keyword filter for a
   * non-blank trimmed keyword, and a status filter only for 'draft' or
   * 'published'.
   */
  function FindAll(page: Json, limit: Json, keyword: Json, status: Json): (q: EventQuery)
    ensures ValidWindow(q.window, MaxLimit) && q.window == ContentWindow(page, limit)
    ensures q.keyword.Some? <==> keyword.JStr? && Trim(keyword.s) != ""
    ensures q.status.Some? <==> status == JStr("draft") || status == JStr("published")
    ensures q.status.Some? ==> JStr(q.status.value) == status
  {
    var st := if status == JStr("draft") || status == JStr("published") then Some(status.s) else None;
    EventQuery(ContentWindow(page, limit), KeywordFilter(keyword), st)
  }

  /** `findPublished`: the limit falls back to, and never exceeds, 100. */
  function FindPublishedLimit(limit: Json): (n: int)
    ensures 1 <= n <= MaxLimit
    ensures ParseInt(limit).None? ==> n == MaxLimit
    ensures ParseInt(limit).Some? ==> n == Min(MaxLimit, Max(1, ParseInt(limit).value))
  {
    NormalizeLimit(limit, MaxLimit)
  }

  /** The request body of create and update. */
  datatype EventInput = EventInput(
    title: Json, titleEn: Json, cover: Json, content: Json, contentEn: Json,
    eventDate: Json, sortOrder: Json, status: Json)

  /** The column values written by create and update. */
  datatype EventRecord = EventRecord(
    title: string, titleEn: string, cover: string, content: Json, contentEn: Json,
    eventDate: Json, status: string, sortOrder: int)

  datatype Written = Invalid(message: string) | Write(record: EventRecord)

  /**
   * create/update (the two share this logic): the record to write, or the
   * 'Invalid eventDate' error before any write when the date is missing or
   * does not parse. `parsesAsDate` stands for whether JavaScript's date parser accepts the value.
   */
  function PrepareWrite(data: EventInput, parsesAsDate: Json -> bool): (w: Written)
    ensures w.Invalid? <==> !Truthy(data.eventDate) || !parsesAsDate(data.eventDate)
    ensures w.Invalid? ==> w.message == "Invalid eventDate"
    ensures w.Write? ==> w.record.status in {"published", "draft"}
    ensures w.Write? ==> w.record.eventDate == data.eventDate
    ensures w.Write? ==> !IsNullish(w.record.content) && !IsNullish(w.record.contentEn)
    ensures w.Write? ==> w.record.title == SanitizeString(data.title)
    ensures w.Write? ==> w.record.titleEn == SanitizeString(data.titleEn) && w.record.cover == SanitizeString(data.cover)
    ensures w.Write? ==> w.record.status == NormalizeStatus(data.status)
    ensures w.Write? ==> w.record.sortOrder == NormalizeSortOrder(data.sortOrder)
    ensures w.Write? ==>
      w.record.content == Coalesce(data.content, JStr("")) && w.record.contentEn == Coalesce(data.contentEn, JStr(""))
  {
    if !Truthy(data.eventDate) || !parsesAsDate(data.eventDate) then Invalid("Invalid eventDate")
    else
      Write(EventRecord(
        SanitizeString(data.title), SanitizeString(data.titleEn), SanitizeString(data.cover),
        Coalesce(data.content, JStr("")), Coalesce(data.contentEn, JStr("")),
        data.eventDate, NormalizeStatus(data.status), NormalizeSortOrder(data.sortOrder)))
  }
}
