/**
 * The location catalog service: the static continent table, the
 * region/subregion resolver, continent lookups, the expiring caches, and
 * the guard and cache path of the per-continent country list.
 */
module LocationCatalog {
  import opened JsRuntime

  /** A continent definition; `subregions` is empty where the source has none. */
  datatype Definition = Definition(code: string, nameZh: string, nameEn: string, region: string, subregions: seq<string>)

  /** `CONTINENT_DEFINITIONS`, in declaration order. */
  const ContinentDefinitions: seq<Definition> := [
    Definition("asia", "亚洲", "Asia", "Asia", []),
    Definition("europe", "欧洲", "Europe", "Europe", []),
    Definition("africa", "非洲", "Africa", "Africa", []),
    Definition("north_america", "北美洲", "North America", "Americas",
      ["Northern America", "North America", "Central America", "Caribbean"]),
    Definition("south_america", "南美洲", "South America", "Americas", ["South America"]),
    Definition("oceania", "大洋洲", "Oceania", "Oceania", []),
    Definition("antarctica", "南极洲", "Antarctica", "Antarctic", [])
  ]

  // ---------------------------------------------------------------------
  // resolveContinentCode
  // ---------------------------------------------------------------------

  /** Whether a definition accepts the trimmed region and subregion. */
  predicate Accepts(def: Definition, region: string, sub: string)
  {
    def.region == region && (def.subregions == [] || (sub != "" && sub in def.subregions))
  }

  /** The first definition from index `i` on that accepts the inputs. */
  function FirstAccepting(i: nat, region: string, sub: string): (r: Option<nat>)
    requires i <= |ContinentDefinitions|
    ensures r.Some? ==> i <= r.value < |ContinentDefinitions| && Accepts(ContinentDefinitions[r.value], region, sub)
    ensures r.Some? ==> forall j :: i <= j < r.value ==> !Accepts(ContinentDefinitions[j], region, sub)
    ensures r.None? ==> forall j :: i <= j < |ContinentDefinitions| ==> !Accepts(ContinentDefinitions[j], region, sub)
    decreases |ContinentDefinitions| - i
  {
    if i == |ContinentDefinitions| then None
    else if Accepts(ContinentDefinitions[i], region, sub) then Some(i)
    else FirstAccepting(i + 1, region, sub)
  }

  /** The first definition of a region. */
  function FirstOfRegion(i: nat, region: string): (r: Option<nat>)
    requires i <= |ContinentDefinitions|
    ensures r.Some? ==> i <= r.value < |ContinentDefinitions| && ContinentDefinitions[r.value].region == region
    ensures r.Some? ==> forall j :: i <= j < r.value ==> ContinentDefinitions[j].region != region
    ensures r.None? ==> forall j :: i <= j < |ContinentDefinitions| ==> ContinentDefinitions[j].region != region
    decreases |ContinentDefinitions| - i
  {
    if i == |ContinentDefinitions| then None
    else if ContinentDefinitions[i].region == region then Some(i)
    else FirstOfRegion(i + 1, region)
  }

  /** The trimmed subregion, or empty when it is missing. */
  function TrimmedOrEmpty(v: Option<string>): string
  {
    if v.Some? && v.value != "" then Trim(v.value) else ""
  }

  /**
   * The resolution of a trimmed region and subregion: the first definition
   * of the region that has no subregion list or lists the subregion, else
   * the first definition of the region, else none.
   */
  function ResolveTrimmed(target: string, sub: string): (r: Option<string>)
    ensures r.Some? ==>
      exists i :: 0 <= i < |ContinentDefinitions| && ContinentDefinitions[i].code == r.value && ContinentDefinitions[i].region == target
  {
    match FirstAccepting(0, target, sub)
    case Some(i) => Some(ContinentDefinitions[i].code)
    case None =>
      match FirstOfRegion(0, target)
      case Some(i) => Some(ContinentDefinitions[i].code)
      case None => None
  }

  /**
   * `resolveContinentCode(region, subregion)`: no continent for a missing or
   * empty region; otherwise the resolution of the trimmed region and the
   * trimmed subregion.
   */
  function ResolveSpec(region: Option<string>, subregion: Option<string>): (r: Option<string>)
    ensures region.None? || region.value == "" ==> r.None?
    ensures region.Some? && region.value != "" ==> r == ResolveTrimmed(Trim(region.value), TrimmedOrEmpty(subregion))
  {
    if region.None? || region.value == "" then None
    else ResolveTrimmed(Trim(region.value), TrimmedOrEmpty(subregion))
  }

  /** `resolveContinentCode` as written: a scan with early return, then the fallback search. */
  method ResolveContinentCode(region: Option<string>, subregion: Option<string>) returns (code: Option<string>)
    ensures code == ResolveSpec(region, subregion)
  {
    if region.None? || region.value == "" {
      return None;
    }
    var targetRegion := Trim(region.value);
    var targetSub := TrimmedOrEmpty(subregion);
    var i := 0;
    while i < |ContinentDefinitions|
      invariant 0 <= i <= |ContinentDefinitions|
      invariant FirstAccepting(0, targetRegion, targetSub) == FirstAccepting(i, targetRegion, targetSub)
    {
      var def := ContinentDefinitions[i];
      if def.region == targetRegion {
        if def.subregions == [] {
          return Some(def.code);
        }
        if targetSub != "" && targetSub in def.subregions {
          return Some(def.code);
        }
      }
      i := i + 1;
    }
    var fallback := FirstOfRegion(0, targetRegion);
    code := if fallback.Some? then Some(ContinentDefinitions[fallback.value].code) else None;
  }

  /** The region names of the table. */
  const KnownRegions: set<string> := {"Asia", "Europe", "Africa", "Americas", "Oceania", "Antarctic"}

  /** A region outside the table resolves to no continent. */
  lemma ResolveUnknownRegion(target: string, sub: string)
    requires target !in KnownRegions
    ensures ResolveTrimmed(target, sub).None?
  {
    assert forall j :: 0 <= j < |ContinentDefinitions| ==> ContinentDefinitions[j].region in KnownRegions;
  }

  /** The Americas split on the subregion; an unlisted or missing one falls back to North America. */
  lemma ResolveAmericas(sub: string)
    ensures sub == "South America" ==> ResolveTrimmed("Americas", sub) == Some("south_america")
    ensures sub != "South America" ==> ResolveTrimmed("Americas", sub) == Some("north_america")
  {
    var defs := ContinentDefinitions;
    assert !Accepts(defs[0], "Americas", sub) && !Accepts(defs[1], "Americas", sub) && !Accepts(defs[2], "Americas", sub);
    assert FirstAccepting(0, "Americas", sub) == FirstAccepting(3, "Americas", sub);
    assert FirstOfRegion(0, "Americas") == Some(3) by {
      assert FirstOfRegion(0, "Americas") == FirstOfRegion(3, "Americas");
    }
    if sub == "South America" {
      assert !Accepts(defs[3], "Americas", sub);
      assert Accepts(defs[4], "Americas", sub);
      assert FirstAccepting(3, "Americas", sub) == Some(4);
    } else if sub != "" && sub in defs[3].subregions {
      assert FirstAccepting(3, "Americas", sub) == Some(3);
    } else {
      assert !Accepts(defs[3], "Americas", sub) && !Accepts(defs[4], "Americas", sub);
      assert !Accepts(defs[5], "Americas", sub) && !Accepts(defs[6], "Americas", sub);
      assert FirstAccepting(3, "Americas", sub) == None;
    }
  }

  /** A region with a single continent resolves to it whatever the subregion. */
  lemma ResolveSingleRegion(i: nat, sub: string)
    requires i < |ContinentDefinitions| && ContinentDefinitions[i].subregions == []
    ensures ResolveTrimmed(ContinentDefinitions[i].region, sub) == Some(ContinentDefinitions[i].code)
  {
    var def := ContinentDefinitions[i];
    assert forall j :: 0 <= j < |ContinentDefinitions| && j != i ==> ContinentDefinitions[j].region != def.region;
    FirstAcceptingAt(0, i, def.region, sub);
  }

  lemma {:induction false} FirstAcceptingAt(i: nat, k: nat, region: string, sub: string)
    requires i <= k < |ContinentDefinitions| && Accepts(ContinentDefinitions[k], region, sub)
    requires forall j :: i <= j < k ==> !Accepts(ContinentDefinitions[j], region, sub)
    ensures FirstAccepting(i, region, sub) == Some(k)
    decreases k - i
  {
    if i < k {
      FirstAcceptingAt(i + 1, k, region, sub);
    }
  }

  // ---------------------------------------------------------------------
  // listContinents and getContinentMeta
  // ---------------------------------------------------------------------

  datatype ContinentMeta = ContinentMeta(code: string, nameZh: string, nameEn: string)

  function MetaOf(def: Definition): ContinentMeta
  {
    ContinentMeta(def.code, def.nameZh, def.nameEn)
  }

  /** `listContinents`: the seven continents in declaration order, names only. */
  function ListContinents(): (r: seq<ContinentMeta>)
    ensures |r| == |ContinentDefinitions| == 7
    ensures forall i :: 0 <= i < |r| ==> r[i] == MetaOf(ContinentDefinitions[i])
  {
    seq(|ContinentDefinitions|, i requires 0 <= i < |ContinentDefinitions| => MetaOf(ContinentDefinitions[i]))
  }

  /**
   * The listed codes are distinct, and each is non-empty, lower-case and
   * free of surrounding whitespace.
   */
  lemma ListedCodes()
    ensures forall i, j :: 0 <= i < j < |ListContinents()| ==> ListContinents()[i].code != ListContinents()[j].code
    ensures forall i :: 0 <= i < |ListContinents()| ==> CleanCode(ListContinents()[i].code)
  {
    var r := ListContinents();
    forall i | 0 <= i < |r| ensures CleanCode(r[i].code) {
      DefinitionCodeClean(i);
    }
  }

  predicate CleanCode(c: string)
  {
    c != "" && IsLower(c) && Trimmed(c)
  }

  lemma DefinitionCodeClean(i: nat)
    requires i < |ContinentDefinitions|
    ensures CleanCode(ContinentDefinitions[i].code)
  {
    var d := ContinentDefinitions;
    if i == 0 { assert d[0].code == "asia"; }
    else if i == 1 { assert d[1].code == "europe"; }
    else if i == 2 { assert d[2].code == "africa"; }
    else if i == 3 { assert d[3].code == "north_america"; }
    else if i == 4 { assert d[4].code == "south_america"; }
    else if i == 5 { assert d[5].code == "oceania"; }
    else { assert d[6].code == "antarctica"; }
  }

  /** The first definition with exactly this code. */
  function FindByCode(i: nat, code: string): (r: Option<nat>)
    requires i <= |ContinentDefinitions|
    ensures r.Some? ==> i <= r.value < |ContinentDefinitions| && ContinentDefinitions[r.value].code == code
    ensures r.None? ==> forall j :: i <= j < |ContinentDefinitions| ==> ContinentDefinitions[j].code != code
    decreases |ContinentDefinitions| - i
  {
    if i == |ContinentDefinitions| then None
    else if ContinentDefinitions[i].code == code then Some(i)
    else FindByCode(i + 1, code)
  }

  /**
   * `getContinentMeta(code)`: nothing for a falsy code; otherwise the listed
   * continent whose code equals the lower-cased `String(code)`.
   */
  function GetContinentMeta(code: Json): (r: Option<ContinentMeta>)
    ensures !Truthy(code) ==> r.None?
    ensures r.Some? ==> r.value in ListContinents() && r.value.code == ToLower(ToStr(code))
    ensures Truthy(code) && r.None? ==> forall c :: c in ListContinents() ==> c.code != ToLower(ToStr(code))
  {
    if !Truthy(code) then None
    else
      match FindByCode(0, ToLower(ToStr(code)))
      case Some(i) =>
        assert ListContinents()[i] == MetaOf(ContinentDefinitions[i]);
        Some(MetaOf(ContinentDefinitions[i]))
      case None => None
  }

  /** Every listed continent is found again by its code, in any letter case. */
  lemma ListedContinentsResolve(i: nat)
    requires i < |ListContinents()|
    ensures GetContinentMeta(JStr(ListContinents()[i].code)) == Some(ListContinents()[i])
    ensures GetContinentMeta(JStr(ToUpper(ListContinents()[i].code))).Some?
  {
    var c := ListContinents()[i];
    ListedCodes();
    LowerOfLower(c.code);
    assert FindByCode(0, c.code) == Some(i) by {
      assert forall j :: 0 <= j < i ==> ContinentDefinitions[j].code != c.code;
      FindByCodeFrom(0, i, c.code);
    }
    UpperThenLower(c.code);
    assert ToLower(ToStr(JStr(ToUpper(c.code)))) == c.code;
  }

  lemma {:induction false} FindByCodeFrom(i: nat, k: nat, code: string)
    requires i <= k < |ContinentDefinitions| && ContinentDefinitions[k].code == code
    requires forall j :: i <= j < k ==> ContinentDefinitions[j].code != code
    ensures FindByCode(i, code) == Some(k)
    decreases k - i
  {
    if i < k {
      FindByCodeFrom(i + 1, k, code);
    }
  }

  /** Upper-casing then lower-casing gives back a string with no upper-case letter. */
  lemma UpperThenLower(s: string)
    requires IsLower(s)
    ensures ToLower(ToUpper(s)) == s
  {
  }

  // ---------------------------------------------------------------------
  // The expiring caches
  // ---------------------------------------------------------------------

  /** `CACHE_TTL`: 24 hours in milliseconds. */
  const CacheTtl := 1000 * 60 * 60 * 24

  /** A cache entry; `expires` is `None` when undefined. */
  datatype CacheEntry<T> = CacheEntry(data: T, expires: Option<int>)

  /** Whether an entry is still served at `now`: its expiry is set, non-zero and later than `now`. */
  predicate Live<T>(e: CacheEntry<T>, now: int)
  {
    e.expires.Some? && e.expires.value != 0 && e.expires.value > now
  }

  /** The entry `setCache` stores; an undefined `ttl` is the 24-hour default, a zero one means no expiry. */
  function NewEntry<T>(data: T, ttl: Option<int>, now: int): (e: CacheEntry<T>)
    ensures e.data == data
    ensures (ttl.None? || ttl.value != 0) ==> e.expires.Some?
    ensures ttl.Some? && ttl.value == 0 ==> e.expires.None?
  {
    var t := if ttl.Some? then ttl.value else CacheTtl;
    CacheEntry(data, if t != 0 then Some(now + t) else None)
  }

  /** One of the module's cache maps. */
  class TtlCache<T> {
    var entries: map<string, CacheEntry<T>>

    constructor ()
      ensures entries == map[]
    {
      entries := map[];
    }

    /**
     * `getCache(map, key)`: the data of a live entry; a dead entry is deleted
     * and gives nothing; every other key is untouched.
     */
    method GetCache(key: string, now: int) returns (data: Option<T>)
      modifies this
      ensures key !in old(entries) ==> data.None? && entries == old(entries)
      ensures key in old(entries) && Live(old(entries)[key], now) ==> data == Some(old(entries)[key].data) && entries == old(entries)
      ensures key in old(entries) && !Live(old(entries)[key], now) ==> data.None? && entries == old(entries) - {key}
    {
      if key !in entries {
        return None;
      }
      var entry := entries[key];
      if Live(entry, now) {
        return Some(entry.data);
      }
      entries := entries - {key};
      return None;
    }

    /** `setCache(map, key, data, ttl)` */
    method SetCache(key: string, data: T, ttl: Option<int>, now: int)
      modifies this
      ensures entries == old(entries)[key := NewEntry(data, ttl, now)]
    {
      entries := entries[key := NewEntry(data, ttl, now)];
    }
  }

  /** An entry set with a positive lifetime is served until it expires. */
  lemma SetThenLive<T>(data: T, ttl: Option<int>, now: int, later: int)
    requires ttl.None? || ttl.value > 0
    requires now <= later < now + (if ttl.Some? then ttl.value else CacheTtl)
    requires now >= 0
    ensures Live(NewEntry(data, ttl, now), later)
    ensures !Live(NewEntry(data, ttl, now), now + (if ttl.Some? then ttl.value else CacheTtl))
  {
  }

  /** An entry set with a zero lifetime is never served. */
  lemma ZeroTtlNeverLive<T>(data: T, now: int, later: int)
    ensures !Live(NewEntry(data, Some(0), now), later)
  {
  }

  // ---------------------------------------------------------------------
  // getCountriesByContinent
  // ---------------------------------------------------------------------

  /** A country of the REST Countries payload; `None` is a missing field. */
  datatype CountryRecord = CountryRecord(
    cca2: Option<string>, nameCommon: Option<string>, zhoCommon: Option<string>,
    region: Option<string>, subregion: Option<string>)

  /** The country summary the service returns and caches. */
  datatype CountryInfo = CountryInfo(
    iso2: string, nameEn: string, nameZh: string, region: Option<string>, subregion: Option<string>, continentCode: string)

  /** `a || b` for optional strings. */
  function Or(a: Option<string>, b: string): string
  {
    if a.Some? && a.value != "" then a.value else b
  }

  /**
   * Whether a payload country belongs to the continent: it has a code, it
   * resolves to some continent, and that continent is this one (for a
   * definition with subregions) or its region is this one (otherwise).
   */
  predicate Belongs(def: Definition, c: CountryRecord)
  {
    c.cca2.Some? && c.cca2.value != ""
    && ResolveSpec(c.region, c.subregion).Some?
    && (if def.subregions != [] then ResolveSpec(c.region, c.subregion) == Some(def.code)
        else c.region == Some(def.region))
  }

  function InfoOf(def: Definition, c: CountryRecord): CountryInfo
    requires c.cca2.Some?
  {
    var code := ToUpper(c.cca2.value);
    CountryInfo(code, Or(c.nameCommon, code), Or(c.zhoCommon, Or(c.nameCommon, code)), c.region, c.subregion, def.code)
  }

  /** The filtered and summarised payload, before sorting. */
  function CountriesOf(def: Definition, payload: seq<CountryRecord>): (r: seq<CountryInfo>)
    ensures |r| <= |payload|
    ensures forall i :: 0 <= i < |r| ==> r[i].continentCode == def.code
    ensures forall i :: 0 <= i < |r| ==> exists c :: c in payload && Belongs(def, c) && r[i] == InfoOf(def, c)
    ensures forall c :: c in payload && Belongs(def, c) ==> InfoOf(def, c) in r
  {
    if payload == [] then []
    else
      var init := payload[..|payload| - 1];
      var rest := CountriesOf(def, init);
      var c := payload[|payload| - 1];
      assert payload == init + [c];
      if Belongs(def, c) then rest + [InfoOf(def, c)] else rest
  }

  /** One more payload country appends its summary exactly when it belongs, so the order is the payload's. */
  lemma {:induction false} CountriesOfAppend(def: Definition, payload: seq<CountryRecord>, c: CountryRecord)
    ensures CountriesOf(def, payload + [c]) == CountriesOf(def, payload) + (if Belongs(def, c) then [InfoOf(def, c)] else [])
  {
    assert (payload + [c])[..|payload + [c]| - 1] == payload;
  }

  datatype CountriesResult = UnknownContinent | ParseFailed | Countries(list: seq<CountryInfo>)

  /**
   * `getCountriesByContinent(code)`: an unknown code fails before the cache
   * is read or anything is fetched; a live cache entry is served; otherwise
   * the fetched payload (`None` when it is not an array) is filtered,
   * summarised, ordered by `collate` (the zh-CN name sort) and cached.
   */
  method GetCountriesByContinent(cache: TtlCache<seq<CountryInfo>>, continentCode: string, now: int,
                                 payload: Option<seq<CountryRecord>>, collate: seq<CountryInfo> -> seq<CountryInfo>)
    returns (r: CountriesResult)
    modifies cache
    ensures FindByCode(0, continentCode).None? ==> r == UnknownContinent && cache.entries == old(cache.entries)
    ensures FindByCode(0, continentCode).Some? && continentCode in old(cache.entries) && Live(old(cache.entries)[continentCode], now) ==>
              r == Countries(old(cache.entries)[continentCode].data) && cache.entries == old(cache.entries)
    ensures FindByCode(0, continentCode).Some? && !(continentCode in old(cache.entries) && Live(old(cache.entries)[continentCode], now)) && payload.None? ==>
              r == ParseFailed && cache.entries == old(cache.entries) - {continentCode}
    ensures FindByCode(0, continentCode).Some? && !(continentCode in old(cache.entries) && Live(old(cache.entries)[continentCode], now)) && payload.Some? ==>
              var list := collate(CountriesOf(ContinentDefinitions[FindByCode(0, continentCode).value], payload.value));
              r == Countries(list) && cache.entries == (old(cache.entries) - {continentCode})[continentCode := NewEntry(list, None, now)]
  {
    var index := FindByCode(0, continentCode);
    if index.None? {
      return UnknownContinent;
    }
    var def := ContinentDefinitions[index.value];
    var cached := cache.GetCache(continentCode, now);
    if cached.Some? {
      return Countries(cached.value);
    }
    assert cache.entries == old(cache.entries) - {continentCode} by {
      if continentCode !in old(cache.entries) {
        assert old(cache.entries) - {continentCode} == old(cache.entries);
      }
    }
    if payload.None? {
      return ParseFailed;
    }
    var countries := collate(CountriesOf(def, payload.value));
    cache.SetCache(continentCode, countries, None, now);
    return Countries(countries);
  }
}
