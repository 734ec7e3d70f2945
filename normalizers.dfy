/**
 * The query-parameter normalisers of the content models. `Event.js` and
 * `Kindergarten.js` each carry an identical private copy of the page, limit,
 * sort-order and string helpers; they are defined once here.
 */
module Normalizers {
  import opened JsRuntime

  const DefaultPage := 1
  const DefaultLimit := 10
  const MaxLimit := 100

  /** `normalizePage`: a parsed page of at least 1, otherwise the fallback. */
  function NormalizePage(value: Json, fallback: int): (r: int)
    ensures ParseInt(value).Some? && ParseInt(value).value >= 1 ==> r == ParseInt(value).value
    ensures (ParseInt(value).None? || ParseInt(value).value < 1) ==> r == fallback
  {
    match ParseInt(value)
    case None => fallback
    case Some(p) => if p < 1 then fallback else p
  }

  /**
   * `normalizeLimit`: the fallback, unclamped, when the value does not parse;
   * otherwise the parse clamped to [1, MaxLimit].
   */
  function NormalizeLimit(value: Json, fallback: int): (r: int)
    ensures ParseInt(value).None? ==> r == fallback
    ensures ParseInt(value).Some? ==> 1 <= r <= MaxLimit
    ensures ParseInt(value).Some? && 1 <= ParseInt(value).value <= MaxLimit ==> r == ParseInt(value).value
    ensures ParseInt(value).Some? ==> r == Min(MaxLimit, Max(1, ParseInt(value).value))
  {
    match ParseInt(value)
    case None => fallback
    case Some(l) => Min(MaxLimit, Max(1, l))
  }

  /** `normalizeSortOrder`: the parsed integer, or 0 when there is none. */
  function NormalizeSortOrder(value: Json): (r: int)
    ensures ParseInt(value).Some? ==> r == ParseInt(value).value
    ensures ParseInt(value).None? ==> r == 0
  {
    match ParseInt(value)
    case None => 0
    case Some(o) => o
  }

  /**
   * `sanitizeString` (and `normalizeString` of the contact model): a
   * non-string is the empty string, a string is trimmed.
   */
  function SanitizeString(value: Json): (r: string)
    ensures !value.JStr? ==> r == ""
    ensures value.JStr? ==> r == Trim(value.s)
    ensures r == [] || (!IsWhitespace(r[0]) && !IsWhitespace(r[|r| - 1]))
  {
    if value.JStr? then Trim(value.s) else ""
  }

  /** Sanitising is idempotent on strings. */
  lemma SanitizeStringIdempotent(value: Json)
    ensures SanitizeString(JStr(SanitizeString(value))) == SanitizeString(value)
  {
    TrimIdempotent(if value.JStr? then value.s else "");
    if !value.JStr? {
      TrimOfTrimmed("");
    }
  }

  /** The page, limit and offset a list query is issued with. */
  datatype Window = Window(page: int, limit: int, offset: int)

  predicate ValidWindow(w: Window, maxLimit: int)
  {
    w.page >= 1 && 1 <= w.limit <= maxLimit && w.offset == (w.page - 1) * w.limit && w.offset >= 0
  }

  /**
   * The window of a list query showing `limit` rows from page `page`: the
   * `OFFSET` skips the rows of the pages before it, and is never negative.
   */
  function PageWindow(page: int, limit: int): (w: Window)
    requires page >= 1 && 1 <= limit <= MaxLimit
    ensures ValidWindow(w, MaxLimit) && w.page == page && w.limit == limit
  {
    Window(page, limit, (page - 1) * limit)
  }

  /**
   * The window of `findAll` in the content models: `normalizePage` with
   * fallback 1 and `normalizeLimit` with fallback 10.
   */
  function ContentWindow(page: Json, limit: Json): (w: Window)
    ensures ValidWindow(w, MaxLimit)
    ensures ParseInt(page).Some? && ParseInt(page).value >= 1 ==> w.page == ParseInt(page).value
    ensures (ParseInt(page).None? || ParseInt(page).value < 1) ==> w.page == DefaultPage
    ensures ParseInt(limit).None? ==> w.limit == DefaultLimit
    ensures ParseInt(limit).Some? ==> w.limit == Min(MaxLimit, Max(1, ParseInt(limit).value))
  {
    var p := NormalizePage(page, DefaultPage);
    var l := NormalizeLimit(limit, DefaultLimit);
    PageWindow(p, l)
  }

  /** A `LIKE` keyword filter is added only for a non-blank keyword. */
  function KeywordFilter(keyword: Json): (f: Option<string>)
    ensures f.Some? <==> keyword.JStr? && Trim(keyword.s) != ""
    ensures f.Some? ==> f.value == Trim(keyword.s)
  {
    var k := SanitizeString(keyword);
    if k != "" then Some(k) else None
  }

  /** `a ?? b` */
  function Coalesce(a: Json, b: Json): (r: Json)
    ensures !IsNullish(a) ==> r == a
    ensures IsNullish(a) ==> r == b
  {
    if IsNullish(a) then b else a
  }
}
