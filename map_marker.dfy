/**
 * The map markers model: the list window of `findAll`, and the two lookups
 * of the continent a country belongs to, by one name or by a list of name
 * variants.
 */
module MapMarkerModel {
  import opened JsRuntime
  import opened Normalizers

  // ---------------------------------------------------------------------
  // findAll
  // ---------------------------------------------------------------------

  /** The parameters `findAll` issues its queries with. */
  datatype MarkerQuery = MarkerQuery(window: Window, keyword: Option<string>, status: Option<Json>, continentId: Option<Json>)

  /** A parsed value that is positive, else the default. */
  function PositiveOr(value: Json, d: int): (r: int)
    requires d > 0
    ensures r > 0
    ensures ParseInt(value).Some? && ParseInt(value).value > 0 ==> r == ParseInt(value).value
    ensures !(ParseInt(value).Some? && ParseInt(value).value > 0) ==> r == d
  {
    match ParseInt(value)
    case Some(n) => if n > 0 then n else d
    case None => d
  }

  /**
   * `findAll(page, limit, keyword, status, continentId)`: a page that does
   * not parse to a positive integer is 1; a limit that does not is 10, and
   * the limit is clamped to [1, 100]; each filter applies only when truthy.
   */
  function FindAll(page: Json, limit: Json, keyword: Json, status: Json, continentId: Json): (q: MarkerQuery)
    ensures ValidWindow(q.window, MaxLimit)
    ensures ParseInt(page).Some? && ParseInt(page).value > 0 ==> q.window.page == ParseInt(page).value
    ensures !(ParseInt(page).Some? && ParseInt(page).value > 0) ==> q.window.page == DefaultPage
    ensures ParseInt(limit).Some? && 0 < ParseInt(limit).value <= MaxLimit ==> q.window.limit == ParseInt(limit).value
    ensures ParseInt(limit).Some? && ParseInt(limit).value > MaxLimit ==> q.window.limit == MaxLimit
    ensures !(ParseInt(limit).Some? && ParseInt(limit).value > 0) ==> q.window.limit == DefaultLimit
    ensures q.keyword.Some? <==> Truthy(keyword)
    ensures q.keyword.Some? ==> q.keyword.value == ToStr(keyword)
    ensures q.status.Some? <==> Truthy(status)
    ensures q.continentId.Some? <==> Truthy(continentId)
  {
    var pageNum := PositiveOr(page, DefaultPage);
    var limitNum := Min(MaxLimit, Max(1, PositiveOr(limit, DefaultLimit)));
    MarkerQuery(
      PageWindow(pageNum, limitNum),
      if Truthy(keyword) then Some(ToStr(keyword)) else None,
      if Truthy(status) then Some(status) else None,
      if Truthy(continentId) then Some(continentId) else None)
  }

  // ---------------------------------------------------------------------
  // The continent of a country
  // ---------------------------------------------------------------------

  /**
   * One row of the marker/continent join, in the order the query sorts it
   * (continent sort order and id, then marker sort order and id).
   */
  datatype CountryRow = CountryRow(
    continentId: nat, continentName: string, continentCode: Option<string>,
    country: string, markerEnabled: bool, continentEnabled: bool)

  /** What both lookups answer with. */
  datatype ContinentRef = ContinentRef(continentId: nat, continentName: string, continentCode: Option<string>)

  /** Whether a row is enabled on both sides and its lower-cased country is one of `keys`. */
  predicate RowMatches(row: CountryRow, keys: seq<string>)
  {
    row.markerEnabled && row.continentEnabled && ToLower(row.country) in keys
  }

  function RefOf(row: CountryRow): ContinentRef
  {
    ContinentRef(row.continentId, row.continentName, row.continentCode)
  }

  /** The first matching row from `i` on: the query's `LIMIT 1`. */
  function FirstMatch(rows: seq<CountryRow>, keys: seq<string>, i: nat): (r: Option<ContinentRef>)
    requires i <= |rows|
    ensures r.Some? ==> exists k :: i <= k < |rows| && RowMatches(rows[k], keys) && r.value == RefOf(rows[k])
                          && forall j :: i <= j < k ==> !RowMatches(rows[j], keys)
    ensures r.None? <==> forall k :: i <= k < |rows| ==> !RowMatches(rows[k], keys)
    decreases |rows| - i
  {
    if i == |rows| then None
    else if RowMatches(rows[i], keys) then Some(RefOf(rows[i]))
    else FirstMatch(rows, keys, i + 1)
  }

  /** A match at `k` with none before it is the row `FirstMatch` answers with. */
  lemma {:induction false} FirstMatchIsFirst(rows: seq<CountryRow>, keys: seq<string>, i: nat, k: nat)
    requires i <= k < |rows| && RowMatches(rows[k], keys)
    requires forall j :: i <= j < k ==> !RowMatches(rows[j], keys)
    ensures FirstMatch(rows, keys, i) == Some(RefOf(rows[k]))
    decreases k - i
  {
    if i < k {
      FirstMatchIsFirst(rows, keys, i + 1, k);
    }
  }

  /** `findContinentByCountry(country)`: nothing for a missing or blank country. */
  function FindContinentByCountry(country: Option<string>, rows: seq<CountryRow>): (r: Option<ContinentRef>)
    ensures country.None? || Trim(country.value) == "" ==> r.None?
    ensures r.Some? ==> country.Some?
    ensures r.Some? ==>
              exists k :: 0 <= k < |rows| && r.value == RefOf(rows[k]) && RowMatches(rows[k], [ToLower(Trim(country.value))])
                          && forall j :: 0 <= j < k ==> !RowMatches(rows[j], [ToLower(Trim(country.value))])
    ensures country.Some? && Trim(country.value) != "" ==>
              (r.None? <==> forall k :: 0 <= k < |rows| ==> !RowMatches(rows[k], [ToLower(Trim(country.value))]))
  {
    if country.None? || country.value == "" then None
    else
      var normalized := Trim(country.value);
      if normalized == "" then None
      else FirstMatch(rows, [ToLower(normalized)], 0)
  }

  /** One variant: a string trimmed and lower-cased, anything else the empty string. */
  function NormalizeVariant(item: Json): (r: string)
    ensures IsLower(r)
    ensures item.JStr? ==> r == ToLower(Trim(item.s))
    ensures !item.JStr? ==> r == ""
  {
    if item.JStr? then ToLower(Trim(item.s)) else ""
  }

  /**
   * The non-empty strings of `vs`
   * without repeats, each where it first occurs.
   */
  function Dedupe(vs: seq<string>): (r: seq<string>)
    ensures forall k :: 0 <= k < |r| ==> r[k] != "" && r[k] in vs
    ensures forall a, b :: 0 <= a < b < |r| ==> r[a] != r[b]
    ensures forall x :: x in r <==> x != "" && x in vs
  {
    if vs == [] then []
    else
      var prev := Dedupe(vs[..|vs| - 1]);
      var v := vs[|vs| - 1];
      assert vs == vs[..|vs| - 1] + [v];
      if v == "" || v in prev then prev else prev + [v]
  }

  /** Later strings only append: deduplicating a prefix gives a prefix. */
  lemma {:induction false} DedupePrefix(vs: seq<string>, m: nat)
    requires m <= |vs|
    ensures Dedupe(vs[..m]) <= Dedupe(vs)
    decreases |vs| - m
  {
    if m < |vs| {
      DedupePrefix(vs[..|vs| - 1], m);
      assert vs[..|vs| - 1][..m] == vs[..m];
    } else {
      assert vs[..m] == vs;
    }
  }

  /** The normal form of every item, in order. */
  function NormalizedItems(items: seq<Json>): (r: seq<string>)
    ensures |r| == |items|
    ensures forall i :: 0 <= i < |items| ==> r[i] == NormalizeVariant(items[i])
  {
    seq(|items|, i requires 0 <= i < |items| => NormalizeVariant(items[i]))
  }

  /** The normalised variants of a list, each lower-case and where it first occurs. */
  function Variants(items: seq<Json>): (r: seq<string>)
    ensures forall k :: 0 <= k < |r| ==> r[k] != "" && IsLower(r[k])
    ensures forall a, b :: 0 <= a < b < |r| ==> r[a] != r[b]
    ensures forall x :: x in r <==> x != "" && exists i :: 0 <= i < |items| && NormalizeVariant(items[i]) == x
  {
    var vs := NormalizedItems(items);
    assert forall x :: x in vs <==> exists i :: 0 <= i < |items| && NormalizeVariant(items[i]) == x;
    Dedupe(vs)
  }

  /**
   * The list the query is issued with; `None` when there is no query: the
   * input is not a non-empty array, or nothing survives normalisation.
   */
  function VariantQuery(variants: Json): (r: Option<seq<string>>)
    ensures !variants.JArr? || variants.items == [] ==> r.None?
    ensures r.Some? ==> r.value != [] && r.value == Variants(variants.items)
    ensures variants.JArr? && r.None? ==> forall i :: 0 <= i < |variants.items| ==> NormalizeVariant(variants.items[i]) == ""
  {
    if !variants.JArr? || variants.items == [] then None
    else
      var normalized := Variants(variants.items);
      if normalized == [] then
        assert forall i :: 0 <= i < |variants.items| ==> NormalizeVariant(variants.items[i]) !in normalized;
        None
      else Some(normalized)
  }

  /** `findContinentByCountryVariants(variants)` */
  function FindContinentByCountryVariants(variants: Json, rows: seq<CountryRow>): (r: Option<ContinentRef>)
    ensures VariantQuery(variants).None? ==> r.None?
    ensures r.Some? ==> exists k :: 0 <= k < |rows| && r.value == RefOf(rows[k])
                          && RowMatches(rows[k], VariantQuery(variants).value)
                          && forall j :: 0 <= j < k ==> !RowMatches(rows[j], VariantQuery(variants).value)
    ensures VariantQuery(variants).Some? && r.None? ==>
              forall k :: 0 <= k < |rows| ==> !RowMatches(rows[k], VariantQuery(variants).value)
  {
    match VariantQuery(variants)
    case None => None
    case Some(keys) => FirstMatch(rows, keys, 0)
  }

  /** Looking a country up alone is looking up the one-variant list of it. */
  lemma CountryIsOneVariant(country: string, rows: seq<CountryRow>)
    ensures FindContinentByCountry(Some(country), rows) == FindContinentByCountryVariants(JArr([JStr(country)]), rows)
  {
    var items := [JStr(country)];
    var k := ToLower(Trim(country));
    assert NormalizedItems(items) == [k];
    assert Dedupe([k]) == if k == "" then [] else [k] by {
      assert [k][..0] == [];
    }
    if Trim(country) == "" {
      assert VariantQuery(JArr(items)).None?;
    } else {
      assert VariantQuery(JArr(items)) == Some([k]);
    }
  }
}
