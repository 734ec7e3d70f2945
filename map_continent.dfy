/**
 * The map continents model: photo-list normalisation, the list window, the
 * create/update transaction over an in-memory continent and photo store, the
 * name-or-code lookup, and the continent → country → city grouping served to
 * the public map.
 */
module MapContinentModel {
  import opened JsRuntime
  import opened Normalizers

  // ---------------------------------------------------------------------
  // normalizePhotos
  // ---------------------------------------------------------------------

  datatype Photo = Photo(url: string, sortOrder: int)

  /** What one list item becomes: a photo, nothing, or a `TypeError` from `trim`. */
  datatype PhotoItem = Keep(photo: Photo) | Drop | Throws

  /** A finite number is kept; anything else is converted, with NaN and 0 replaced by the default. */
  function FiniteOr(v: Json, d: int): int
  {
    if v.JNum? then v.n else NumberOr(v, d)
  }

  /** The photo a string item becomes: trimmed, with its index as sort order. */
  function StringPhoto(item: Json, index: int): Photo
    requires item.JStr?
  {
    Photo(Trim(item.s), index)
  }

  /** The url an object item offers: its `url`, else its `imageUrl`, else "". */
  function RawUrl(item: Json): Json
  {
    OrValue(OrValue(Prop(item, "url"), Prop(item, "imageUrl")), JStr(""))
  }

  /**
   * One item of `normalizePhotos`: a string is kept trimmed, even when empty,
   * with its index as sort order; an object (arrays included) is kept when
   * its url trims to something, and a url that is not a string makes `trim`
   * throw; anything else is dropped.
   */
  function PhotoItemOf(item: Json, index: int): (r: PhotoItem)
    ensures item.JStr? ==> r == Keep(StringPhoto(item, index))
    ensures !item.JStr? && !IsContainer(item) ==> r == Drop
    ensures r.Keep? && !item.JStr? ==> r.photo.url != ""
    ensures r.Throws? ==> IsContainer(item)
  {
    match item
    case JStr(_) => Keep(StringPhoto(item, index))
    case JArr(_) => PhotoOfObject(item, index)
    case JObj(_) => PhotoOfObject(item, index)
    case _ => Drop
  }

  function PhotoOfObject(item: Json, index: int): PhotoItem
  {
    var raw := RawUrl(item);
    if !raw.JStr? then Throws
    else
      var url := Trim(raw.s);
      if url == "" then Drop else Keep(Photo(url, FiniteOr(Prop(item, "sortOrder"), index)))
  }

  /**
   * An object item with a usable url keeps it trimmed; its sort order is its
   * own when that is a number, else its numeric value unless that is 0 or
   * not a number, else the item's index.
   */
  lemma PhotoOfObjectItem(item: Json, index: int)
    requires IsContainer(item) && RawUrl(item).JStr? && Trim(RawUrl(item).s) != ""
    ensures PhotoItemOf(item, index) == Keep(Photo(Trim(RawUrl(item).s), FiniteOr(Prop(item, "sortOrder"), index)))
    ensures Prop(item, "sortOrder").JNum? ==> PhotoItemOf(item, index).photo.sortOrder == Prop(item, "sortOrder").n
    ensures !Prop(item, "sortOrder").JNum? && ToNumber(Prop(item, "sortOrder")) == Some(0) ==> PhotoItemOf(item, index).photo.sortOrder == index
    ensures !Prop(item, "sortOrder").JNum? && ToNumber(Prop(item, "sortOrder")).None? ==> PhotoItemOf(item, index).photo.sortOrder == index
  {
  }

  /** `trim` throws exactly on an object item whose url is truthy but not a string. */
  lemma PhotoItemThrows(item: Json, index: int)
    ensures PhotoItemOf(item, index).Throws? <==> IsContainer(item) && !RawUrl(item).JStr?
  {
  }

  /** Whether one of the first `n` items makes `trim` throw. */
  predicate SomeThrows(items: seq<Json>, n: nat)
    requires n <= |items|
  {
    exists i :: 0 <= i < n && PhotoItemOf(items[i], i).Throws?
  }

  /** The photos after one more item. */
  function NextPhotos(prev: Option<seq<Photo>>, item: PhotoItem): (r: Option<seq<Photo>>)
    ensures r.Some? ==> prev.Some? && |r.value| <= |prev.value| + 1
  {
    match prev
    case None => None
    case Some(ps) =>
      match item
      case Keep(p) => Some(ps + [p])
      case Drop => Some(ps)
      case Throws => None
  }

  /** The photos of the first `n` items in order; `None` when one of them throws. */
  function PhotosOf(items: seq<Json>, n: nat): (r: Option<seq<Photo>>)
    requires n <= |items|
    ensures r.Some? ==> |r.value| <= n
    ensures r.None? <==> SomeThrows(items, n)
  {
    if n == 0 then Some([]) else NextPhotos(PhotosOf(items, n - 1), PhotoItemOf(items[n - 1], n - 1))
  }

  /**
   * `normalizePhotos(photos)`: a non-array gives no photos; otherwise the
   * kept items in list order, never more than there are items.
   */
  function NormalizePhotos(photos: Json): (r: Option<seq<Photo>>)
    ensures !photos.JArr? ==> r == Some([])
    ensures photos.JArr? && r.Some? ==> |r.value| <= |photos.items|
    ensures r.None? <==> photos.JArr? && SomeThrows(photos.items, |photos.items|)
  {
    if photos.JArr? then PhotosOf(photos.items, |photos.items|) else Some([])
  }

  /**
   * A string item always adds exactly one photo, after the photos of the
   * items before it: trimmed, even to nothing, with its index as sort order.
   */
  lemma PhotosOfStringItem(items: seq<Json>, n: nat)
    requires 0 < n <= |items| && items[n - 1].JStr? && PhotosOf(items, n - 1).Some?
    ensures PhotosOf(items, n) == Some(PhotosOf(items, n - 1).value + [StringPhoto(items[n - 1], n - 1)])
  {
  }

  /** An object item whose url is missing or blank adds no photo. */
  lemma PhotosOfBlankObject(items: seq<Json>, n: nat)
    requires 0 < n <= |items| && IsContainer(items[n - 1])
    requires RawUrl(items[n - 1]).JStr? && Trim(RawUrl(items[n - 1]).s) == ""
    ensures PhotosOf(items, n) == PhotosOf(items, n - 1)
  {
  }

  /** Every photo's url has no whitespace at either end. */
  predicate UrlsTrimmed(ps: seq<Photo>)
  {
    forall k :: 0 <= k < |ps| ==> Trimmed(ps[k].url)
  }

  /** A kept item's url is trimmed. */
  lemma PhotoItemTrimmed(item: Json, index: int)
    ensures PhotoItemOf(item, index).Keep? ==> Trimmed(PhotoItemOf(item, index).photo.url)
  {
    if item.JStr? {
      assert Trimmed(Trim(item.s));
    } else if IsContainer(item) && RawUrl(item).JStr? {
      assert Trimmed(Trim(RawUrl(item).s));
    }
  }

  /** One more item keeps every url trimmed. */
  lemma NextPhotosTrimmed(prev: Option<seq<Photo>>, item: PhotoItem)
    requires prev.Some? ==> UrlsTrimmed(prev.value)
    requires item.Keep? ==> Trimmed(item.photo.url)
    ensures NextPhotos(prev, item).Some? ==> UrlsTrimmed(NextPhotos(prev, item).value)
  {
  }

  /** Every photo's url is trimmed. */
  lemma {:induction false} PhotosTrimmed(items: seq<Json>, n: nat)
    requires n <= |items|
    ensures PhotosOf(items, n).Some? ==> UrlsTrimmed(PhotosOf(items, n).value)
  {
    if n > 0 {
      PhotosTrimmed(items, n - 1);
      PhotoItemTrimmed(items[n - 1], n - 1);
      NextPhotosTrimmed(PhotosOf(items, n - 1), PhotoItemOf(items[n - 1], n - 1));
    }
  }

  // ---------------------------------------------------------------------
  // findAll
  // ---------------------------------------------------------------------

  /** The parameters `findAll` issues its queries with. */
  datatype ContinentQuery = ContinentQuery(window: Window, keyword: Option<string>, status: Option<Json>)

  /**
   * `findAll(page, limit, keyword, status)`: a page that is not a positive
   * number is 1; a limit that is not a positive number is 10, and no limit
   * exceeds 100; the keyword and status filters apply only when truthy.
   */
  function FindAll(page: Json, limit: Json, keyword: Json, status: Json): (q: ContinentQuery)
    ensures ValidWindow(q.window, MaxLimit)
    ensures ToNumber(page).Some? && ToNumber(page).value > 0 ==> q.window.page == ToNumber(page).value
    ensures !(ToNumber(page).Some? && ToNumber(page).value > 0) ==> q.window.page == DefaultPage
    ensures ToNumber(limit).Some? && 0 < ToNumber(limit).value <= MaxLimit ==> q.window.limit == ToNumber(limit).value
    ensures !(ToNumber(limit).Some? && ToNumber(limit).value > 0) ==> q.window.limit == DefaultLimit
    ensures ToNumber(limit).Some? && ToNumber(limit).value > MaxLimit ==> q.window.limit == MaxLimit
    ensures q.keyword.Some? <==> Truthy(keyword)
    ensures q.keyword.Some? ==> q.keyword.value == ToStr(keyword)
    ensures q.status.Some? <==> Truthy(status)
  {
    var pageNum := if ToNumber(page).Some? && ToNumber(page).value > 0 then ToNumber(page).value else DefaultPage;
    var limitNum := Min(MaxLimit, if ToNumber(limit).Some? && ToNumber(limit).value > 0 then ToNumber(limit).value else DefaultLimit);
    ContinentQuery(
      PageWindow(pageNum, limitNum),
      if Truthy(keyword) then Some(ToStr(keyword)) else None,
      if Truthy(status) then Some(status) else None)
  }

  // ---------------------------------------------------------------------
  // create and update
  // ---------------------------------------------------------------------

  /** A `map_continents` row. */
  datatype Continent = Continent(name: string, code: Option<string>, description: Json, sortOrder: int, status: Json)

  /** The body of create and update; the name is a string once validated. */
  datatype ContinentInput = ContinentInput(name: string, code: Json, description: Json, sortOrder: Json, status: Json, photos: Json)

  datatype StoreError = TypeErrorThrown | DuplicateCode | ForeignKeyFailed
  datatype Result<T> = Ok(value: T) | Err(error: StoreError)
  datatype Outcome = Done | Failed(error: StoreError)

  /** The two tables and the next auto-increment id. */
  datatype Tables = Tables(continents: map<nat, Continent>, photos: map<nat, seq<Photo>>, nextId: nat)

  /** Ids below the counter, photos only for existing continents, codes unique. */
  predicate ValidTables(t: Tables)
  {
    t.nextId >= 1
    && (forall id :: id in t.continents ==> 1 <= id < t.nextId)
    && (forall id :: id in t.photos ==> id in t.continents)
    && (forall a, b :: a in t.continents && b in t.continents && a != b && t.continents[a].code.Some? ==>
          t.continents[a].code != t.continents[b].code)
  }

  /** The trimmed code, or null when it is falsy; `None` when a truthy non-string makes `trim` throw. */
  function CodeOf(code: Json): (r: Option<Option<string>>)
    ensures !Truthy(code) ==> r == Some(None)
    ensures code.JStr? && code.s != "" ==> r == Some(Some(Trim(code.s)))
    ensures r.None? <==> Truthy(code) && !code.JStr?
  {
    if !Truthy(code) then Some(None)
    else if code.JStr? then Some(Some(Trim(code.s)))
    else None
  }

  /** The row written: trimmed name, `description || ''`, sort order 0 by default, status 'enabled' by default. */
  function RowOf(input: ContinentInput, code: Option<string>): Continent
  {
    Continent(
      Trim(input.name), code,
      OrValue(input.description, JStr("")),
      FiniteOr(input.sortOrder, 0),
      if input.status.JUndef? then JStr("enabled") else input.status)
  }

  /** Whether another continent than `except` already has this code. */
  predicate CodeTaken(continents: map<nat, Continent>, code: Option<string>, except: nat)
  {
    code.Some? && exists id :: id in continents && id != except && continents[id].code == code
  }

  /**
   * `create(data)`: the row and its normalised photos in one transaction. A
   * code that cannot be trimmed, a code already taken, or photos that cannot
   * be normalised roll everything back.
   */
  function CreateSpec(t: Tables, input: ContinentInput): (r: (Tables, Result<nat>))
    ensures r.1.Err? ==> r.0 == t
    ensures r.1.Ok? <==> CodeOf(input.code).Some? && !CodeTaken(t.continents, CodeOf(input.code).value, 0)
                         && NormalizePhotos(input.photos).Some?
    ensures r.1.Ok? ==> r.1.value == t.nextId && r.0.continents == t.continents[t.nextId := RowOf(input, CodeOf(input.code).value)]
    ensures r.1.Ok? ==> r.0.photos == t.photos[t.nextId := NormalizePhotos(input.photos).value] && r.0.nextId == t.nextId + 1
  {
    match CodeOf(input.code)
    case None => (t, Err(TypeErrorThrown))
    case Some(code) =>
      if CodeTaken(t.continents, code, 0) then (t, Err(DuplicateCode))
      else
        match NormalizePhotos(input.photos)
        case None => (t, Err(TypeErrorThrown))
        case Some(ps) =>
          var id := t.nextId;
          (Tables(t.continents[id := RowOf(input, code)], t.photos[id := ps], id + 1), Ok(id))
  }

  /**
   * `update(id, data)`: the row is rewritten, and the photos are replaced only
   * when `photos` is given. Any failure rolls everything back. Updating a
   * missing id writes nothing, and fails on the photos' foreign key when
   * there is a photo to insert.
   */
  function UpdateSpec(t: Tables, id: nat, input: ContinentInput): (r: (Tables, Outcome))
    ensures r.1.Failed? ==> r.0 == t
    ensures r.0.continents.Keys == t.continents.Keys && r.0.nextId == t.nextId
    ensures forall other :: other != id && other in t.continents ==> r.0.continents[other] == t.continents[other]
    ensures forall other :: other != id ==> (other in r.0.photos <==> other in t.photos)
    ensures forall other :: other != id && other in t.photos ==> r.0.photos[other] == t.photos[other]
    ensures input.photos.JUndef? ==> r.0.photos == t.photos
    ensures r.1.Done? && id in t.continents ==> CodeOf(input.code).Some? && r.0.continents[id] == RowOf(input, CodeOf(input.code).value)
    ensures r.1.Done? && id in t.continents && !input.photos.JUndef? ==>
              NormalizePhotos(input.photos).Some? && id in r.0.photos && r.0.photos[id] == NormalizePhotos(input.photos).value
    ensures r.1.Done? <==>
              CodeOf(input.code).Some? && !(id in t.continents && CodeTaken(t.continents, CodeOf(input.code).value, id))
              && (input.photos.JUndef?
                  || (NormalizePhotos(input.photos).Some? && (id in t.continents || NormalizePhotos(input.photos).value == [])))
    ensures r.1 == Failed(DuplicateCode) <==>
              CodeOf(input.code).Some? && id in t.continents && CodeTaken(t.continents, CodeOf(input.code).value, id)
    ensures r.1 == Failed(ForeignKeyFailed) <==>
              CodeOf(input.code).Some? && id !in t.continents && !input.photos.JUndef?
              && NormalizePhotos(input.photos).Some? && NormalizePhotos(input.photos).value != []
    ensures id !in t.continents ==> r.0 == t
  {
    match CodeOf(input.code)
    case None => (t, Failed(TypeErrorThrown))
    case Some(code) =>
      if id in t.continents && CodeTaken(t.continents, code, id) then (t, Failed(DuplicateCode))
      else
        var continents := if id in t.continents then t.continents[id := RowOf(input, code)] else t.continents;
        if input.photos.JUndef? then (t.(continents := continents), Done)
        else
          match NormalizePhotos(input.photos)
          case None => (t, Failed(TypeErrorThrown))
          case Some(ps) =>
            if id !in t.continents && ps != [] then (t, Failed(ForeignKeyFailed))
            else if id !in t.continents then (t, Done)
            else (t.(continents := continents, photos := t.photos[id := ps]), Done)
  }

  /** A created continent gets an id no continent had, and the tables stay valid. */
  lemma CreateKeepsValid(t: Tables, input: ContinentInput)
    requires ValidTables(t)
    ensures ValidTables(CreateSpec(t, input).0)
    ensures CreateSpec(t, input).1.Ok? ==> CreateSpec(t, input).1.value !in t.continents
  {
  }

  /** An update keeps the tables valid, the code uniqueness among them. */
  lemma UpdateKeepsValid(t: Tables, id: nat, input: ContinentInput)
    requires ValidTables(t)
    ensures ValidTables(UpdateSpec(t, id, input).0)
  {
  }

  /** The two tables, held by the service between requests. */
  class ContinentStore {
    var continents: map<nat, Continent>
    var photos: map<nat, seq<Photo>>
    var nextId: nat

    function State(): Tables
      reads this
    {
      Tables(continents, photos, nextId)
    }

    ghost predicate Valid()
      reads this
    {
      ValidTables(State())
    }

    constructor ()
      ensures Valid() && continents == map[] && photos == map[] && nextId == 1
    {
      continents := map[];
      photos := map[];
      nextId := 1;
    }

    /** Inserts the photos of `id` one row at a time, after the ones it has. */
    method InsertPhotos(id: nat, ps: seq<Photo>)
      requires id in photos
      modifies this
      ensures continents == old(continents) && nextId == old(nextId)
      ensures photos == old(photos)[id := old(photos)[id] + ps]
    {
      var i := 0;
      assert old(photos)[id] + ps[..0] == old(photos)[id];
      while i < |ps|
        invariant 0 <= i <= |ps|
        invariant continents == old(continents) && nextId == old(nextId)
        invariant id in photos && photos[id] == old(photos)[id] + ps[..i]
        invariant photos == old(photos)[id := photos[id]]
      {
        photos := photos[id := photos[id] + [ps[i]]];
        assert ps[..i + 1] == ps[..i] + [ps[i]];
        i := i + 1;
      }
      assert ps[..|ps|] == ps;
    }

    /** Inserts a continent row under the next id, then its photos. */
    method AddContinent(row: Continent, ps: seq<Photo>)
      modifies this
      ensures continents == old(continents)[old(nextId) := row]
      ensures photos == old(photos)[old(nextId) := ps]
      ensures nextId == old(nextId) + 1
    {
      var id := nextId;
      continents := continents[id := row];
      photos := photos[id := []];
      nextId := nextId + 1;
      InsertPhotos(id, ps);
      assert [] + ps == ps;
    }

    /** Rewrites the row of `id`, then replaces its photos. */
    method ReplaceContinent(id: nat, row: Continent, ps: seq<Photo>)
      modifies this
      ensures continents == old(continents)[id := row]
      ensures photos == old(photos)[id := ps]
      ensures nextId == old(nextId)
    {
      continents := continents[id := row];
      photos := photos[id := []];
      InsertPhotos(id, ps);
      assert [] + ps == ps;
    }

    /** `MapContinent.create(data)` */
    method Create(input: ContinentInput) returns (result: Result<nat>)
      requires Valid()
      modifies this
      ensures Valid()
      ensures (State(), result) == CreateSpec(old(State()), input)
    {
      ghost var t := State();
      var code := CodeOf(input.code);
      if code.None? {
        return Err(TypeErrorThrown);
      }
      if CodeTaken(continents, code.value, 0) {
        return Err(DuplicateCode);
      }
      var normalized := NormalizePhotos(input.photos);
      if normalized.None? {
        return Err(TypeErrorThrown);
      }
      CreateKeepsValid(t, input);
      var id := nextId;
      AddContinent(RowOf(input, code.value), normalized.value);
      assert CreateSpec(t, input) == (State(), Ok(id));
      result := Ok(id);
    }

    /** `MapContinent.update(id, data)` */
    method Update(id: nat, input: ContinentInput) returns (outcome: Outcome)
      requires Valid()
      modifies this
      ensures Valid()
      ensures (State(), outcome) == UpdateSpec(old(State()), id, input)
    {
      ghost var t := State();
      UpdateKeepsValid(t, id, input);
      var code := CodeOf(input.code);
      if code.None? {
        return Failed(TypeErrorThrown);
      }
      if id in continents && CodeTaken(continents, code.value, id) {
        return Failed(DuplicateCode);
      }
      if input.photos.JUndef? {
        if id in continents {
          continents := continents[id := RowOf(input, code.value)];
        }
        assert UpdateSpec(t, id, input) == (State(), Done);
        return Done;
      }
      var normalized := NormalizePhotos(input.photos);
      if normalized.None? {
        return Failed(TypeErrorThrown);
      }
      if id !in continents {
        return if normalized.value != [] then Failed(ForeignKeyFailed) else Done;
      }
      ReplaceContinent(id, RowOf(input, code.value), normalized.value);
      assert UpdateSpec(t, id, input) == (State(), Done);
      outcome := Done;
    }
  }

  // ---------------------------------------------------------------------
  // findByNameOrCode
  // ---------------------------------------------------------------------

  predicate CodeMatches(c: Continent, key: string)
  {
    c.code.Some? && ToLower(c.code.value) == key
  }

  predicate NameMatches(c: Continent, key: string)
  {
    ToLower(c.name) == key
  }

  /** The first row from `i` on whose lower-cased code is `key`. */
  function FirstByCode(rows: seq<(nat, Continent)>, key: string, i: nat): (r: Option<nat>)
    requires i <= |rows|
    ensures r.Some? ==> exists k :: i <= k < |rows| && rows[k].0 == r.value && CodeMatches(rows[k].1, key)
    ensures r.None? ==> forall k :: i <= k < |rows| ==> !CodeMatches(rows[k].1, key)
    decreases |rows| - i
  {
    if i == |rows| then None
    else if CodeMatches(rows[i].1, key) then Some(rows[i].0)
    else FirstByCode(rows, key, i + 1)
  }

  /** The first row from `i` on whose lower-cased name is `key`. */
  function FirstByName(rows: seq<(nat, Continent)>, key: string, i: nat): (r: Option<nat>)
    requires i <= |rows|
    ensures r.Some? ==> exists k :: i <= k < |rows| && rows[k].0 == r.value && NameMatches(rows[k].1, key)
    ensures r.None? ==> forall k :: i <= k < |rows| ==> !NameMatches(rows[k].1, key)
    decreases |rows| - i
  {
    if i == |rows| then None
    else if NameMatches(rows[i].1, key) then Some(rows[i].0)
    else FirstByName(rows, key, i + 1)
  }

  /**
   * `findByCode(code)` over the table in scan order: nothing for a falsy
   * code; otherwise the first continent whose lower-cased code is the
   * lower-cased `String(code)`.
   */
  function FindByCode(rows: seq<(nat, Continent)>, code: Json): (r: Option<nat>)
    ensures !Truthy(code) ==> r.None?
    ensures r.Some? ==> exists k :: 0 <= k < |rows| && rows[k].0 == r.value && CodeMatches(rows[k].1, ToLower(ToStr(code)))
    ensures Truthy(code) && r.None? ==> forall k :: 0 <= k < |rows| ==> !CodeMatches(rows[k].1, ToLower(ToStr(code)))
  {
    if !Truthy(code) then None else FirstByCode(rows, ToLower(ToStr(code)), 0)
  }

  /** A first match stays the first match when rows are added after it. */
  lemma {:induction false} FirstByCodeExtend(rows: seq<(nat, Continent)>, more: seq<(nat, Continent)>, key: string, i: nat)
    requires i <= |rows|
    ensures FirstByCode(rows, key, i).Some? ==> FirstByCode(rows + more, key, i) == FirstByCode(rows, key, i)
    ensures FirstByCode(rows, key, i).None? && more != [] && CodeMatches(more[0].1, key) ==>
              FirstByCode(rows + more, key, i) == Some(more[0].0)
    decreases |rows| - i
  {
    if i < |rows| {
      assert (rows + more)[i] == rows[i];
      FirstByCodeExtend(rows, more, key, i + 1);
    } else if more != [] {
      assert (rows + more)[i] == more[0];
    }
  }

  /**
   * `findByNameOrCode(identifier)` over the table in scan order: nothing for
   * a missing or blank identifier; otherwise a continent whose code matches
   * the trimmed, lower-cased identifier, and only when none does, one whose
   * name matches it.
   */
  function FindByNameOrCode(rows: seq<(nat, Continent)>, identifier: Option<string>): (r: Option<nat>)
    ensures identifier.None? || Trim(identifier.value) == "" ==> r.None?
    ensures identifier.Some? && Trim(identifier.value) != "" ==>
              var key := ToLower(Trim(identifier.value));
              (exists k :: 0 <= k < |rows| && CodeMatches(rows[k].1, key)) ==>
                r.Some? && exists k :: 0 <= k < |rows| && rows[k].0 == r.value && CodeMatches(rows[k].1, key)
    ensures identifier.Some? && Trim(identifier.value) != "" ==>
              var key := ToLower(Trim(identifier.value));
              r.Some? ==> exists k :: 0 <= k < |rows| && rows[k].0 == r.value && (CodeMatches(rows[k].1, key) || NameMatches(rows[k].1, key))
    ensures identifier.Some? && Trim(identifier.value) != "" ==>
              var key := ToLower(Trim(identifier.value));
              r.None? ==> forall k :: 0 <= k < |rows| ==> !CodeMatches(rows[k].1, key) && !NameMatches(rows[k].1, key)
  {
    if identifier.None? || identifier.value == "" then None
    else
      var trimmed := Trim(identifier.value);
      if trimmed == "" then None
      else
        var key := ToLower(trimmed);
        ToLowerIdempotent(trimmed);
        match FirstByCode(rows, ToLower(key), 0)
        case Some(id) => Some(id)
        case None => FirstByName(rows, key, 0)
  }

  // ---------------------------------------------------------------------
  // fetchForPublic
  // ---------------------------------------------------------------------

  /** An enabled continent, as the public query lists it. */
  datatype ContinentHead = ContinentHead(id: nat, name: string, code: Option<string>, description: Json)

  datatype PhotoRow = PhotoRow(id: nat, continentId: nat, url: string, sortOrder: int)

  /** An enabled marker, as the public query lists it; coordinates are left out. */
  datatype MarkerRow = MarkerRow(id: nat, continentId: nat, country: string, city: string, sortOrder: int)

  datatype City = City(id: nat, country: string, city: string, sortOrder: int)
  datatype CountryGroup = CountryGroup(country: string, cities: seq<City>)
  datatype PublicPhoto = PublicPhoto(id: nat, url: string, sortOrder: int)
  datatype PublicContinent = PublicContinent(
    id: nat, name: string, code: Option<string>, description: Json,
    photos: seq<PublicPhoto>, countries: seq<CountryGroup>)

  /** The group of markers with an empty country. */
  const UnknownCountry := "未知区域"

  function CountryName(country: string): string
  {
    if country == "" then UnknownCountry else country
  }

  function CityOf(m: MarkerRow): City
  {
    City(m.id, CountryName(m.country), m.city, m.sortOrder)
  }

  /** The cities of one country, in marker order. */
  function CitiesIn(ms: seq<MarkerRow>, name: string): (r: seq<City>)
    ensures forall k :: 0 <= k < |r| ==> r[k].country == name
  {
    if ms == [] then []
    else
      var rest := CitiesIn(ms[..|ms| - 1], name);
      var c := CityOf(ms[|ms| - 1]);
      if c.country == name then rest + [c] else rest
  }

  /** The country names in order of first appearance. */
  function CountryOrder(ms: seq<MarkerRow>): (r: seq<string>)
    ensures forall i, j :: 0 <= i < j < |r| ==> r[i] != r[j]
    ensures forall k :: 0 <= k < |ms| ==> CountryName(ms[k].country) in r
    ensures forall x :: x in r ==> CitiesIn(ms, x) != []
  {
    if ms == [] then []
    else
      var rest := CountryOrder(ms[..|ms| - 1]);
      var name := CountryName(ms[|ms| - 1].country);
      assert forall k :: 0 <= k < |ms| - 1 ==> ms[k] == ms[..|ms| - 1][k];
      if name in rest then rest else rest + [name]
  }

  /** The position of a country's group. */
  function IndexOfCountry(groups: seq<CountryGroup>, name: string, i: nat): (r: Option<nat>)
    requires i <= |groups|
    ensures r.Some? ==> i <= r.value < |groups| && groups[r.value].country == name
    ensures r.None? ==> forall k :: i <= k < |groups| ==> groups[k].country != name
    decreases |groups| - i
  {
    if i == |groups| then None
    else if groups[i].country == name then Some(i)
    else IndexOfCountry(groups, name, i + 1)
  }

  /** The city appended to its country's group, or a new group at the end. */
  function AddCity(groups: seq<CountryGroup>, c: City): seq<CountryGroup>
  {
    match IndexOfCountry(groups, c.country, 0)
    case Some(k) => groups[k := CountryGroup(c.country, groups[k].cities + [c])]
    case None => groups + [CountryGroup(c.country, [c])]
  }

  /** `countriesMap` after the markers of one continent. */
  function GroupByCountry(ms: seq<MarkerRow>): seq<CountryGroup>
  {
    if ms == [] then [] else AddCity(GroupByCountry(ms[..|ms| - 1]), CityOf(ms[|ms| - 1]))
  }

  lemma {:induction false} CitiesInAbsent(ms: seq<MarkerRow>, name: string)
    requires name !in CountryOrder(ms)
    ensures CitiesIn(ms, name) == []
  {
    if ms != [] {
      var p := ms[..|ms| - 1];
      assert forall x :: x in CountryOrder(p) ==> x in CountryOrder(ms);
      CitiesInAbsent(p, name);
    }
  }

  /**
   * The groups are the countries in order of first appearance, each holding
   * exactly its own cities in marker order.
   */
  lemma {:induction false} GroupByCountryShape(ms: seq<MarkerRow>)
    ensures |GroupByCountry(ms)| == |CountryOrder(ms)|
    ensures forall i :: 0 <= i < |GroupByCountry(ms)| ==> GroupByCountry(ms)[i].country == CountryOrder(ms)[i]
    ensures forall i :: 0 <= i < |GroupByCountry(ms)| ==> GroupByCountry(ms)[i].cities == CitiesIn(ms, CountryOrder(ms)[i])
  {
    if ms != [] {
      var p := ms[..|ms| - 1];
      var c := CityOf(ms[|ms| - 1]);
      GroupByCountryShape(p);
      var gp := GroupByCountry(p);
      var order := CountryOrder(p);
      match IndexOfCountry(gp, c.country, 0)
      case Some(k) =>
        assert order[k] == c.country;
        forall i | 0 <= i < |gp|
          ensures GroupByCountry(ms)[i].cities == CitiesIn(ms, order[i])
        {
          if i != k {
            assert order[i] != c.country;
          }
        }
      case None =>
        assert c.country !in order;
        CitiesInAbsent(p, c.country);
    }
  }

  /**
   * Every marker is placed under its own country's group, and no city lands
   * in another country's group.
   */
  lemma MarkerPlacedOnce(ms: seq<MarkerRow>, j: nat)
    requires j < |ms|
    ensures exists i :: 0 <= i < |GroupByCountry(ms)| && GroupByCountry(ms)[i].country == CountryName(ms[j].country)
                                                     && CityOf(ms[j]) in GroupByCountry(ms)[i].cities
    ensures forall i :: 0 <= i < |GroupByCountry(ms)| && CityOf(ms[j]) in GroupByCountry(ms)[i].cities ==>
              GroupByCountry(ms)[i].country == CountryName(ms[j].country)
  {
    GroupByCountryShape(ms);
    var g := GroupByCountry(ms);
    var name := CountryName(ms[j].country);
    var i :| 0 <= i < |CountryOrder(ms)| && CountryOrder(ms)[i] == name;
    CitiesInHas(ms, j);
    assert g[i].country == name && CityOf(ms[j]) in g[i].cities;
  }

  lemma {:induction false} CitiesInHas(ms: seq<MarkerRow>, j: nat)
    requires j < |ms|
    ensures CityOf(ms[j]) in CitiesIn(ms, CountryName(ms[j].country))
  {
    if j < |ms| - 1 {
      CitiesInHas(ms[..|ms| - 1], j);
    }
  }

  /** The city comparator does not put `b` first: sort order (missing is 0), then id. */
  predicate CityBefore(a: City, b: City)
  {
    a.sortOrder < b.sortOrder || (a.sortOrder == b.sortOrder && a.id <= b.id)
  }

  predicate CitiesSorted(cs: seq<City>)
  {
    forall i, j :: 0 <= i < j < |cs| ==> CityBefore(cs[i], cs[j])
  }

  function InsertCity(c: City, cs: seq<City>): (r: seq<City>)
    requires CitiesSorted(cs)
    ensures forall x :: x in r ==> x == c || x in cs
    ensures CitiesSorted(r)
    ensures multiset(r) == multiset(cs) + multiset{c}
  {
    if cs == [] then [c]
    else if CityBefore(c, cs[0]) then [c] + cs
    else
      var rest := InsertCity(c, cs[1..]);
      assert cs == [cs[0]] + cs[1..];
      assert forall x :: x in rest ==> CityBefore(cs[0], x);
      [cs[0]] + rest
  }

  /** The cities' `sort`: ordered by sort order, then id, and a permutation. */
  function SortCities(cs: seq<City>): (r: seq<City>)
    ensures CitiesSorted(r)
    ensures multiset(r) == multiset(cs)
  {
    if cs == [] then []
    else
      assert cs == cs[..|cs| - 1] + [cs[|cs| - 1]];
      InsertCity(cs[|cs| - 1], SortCities(cs[..|cs| - 1]))
  }

  function SortGroups(groups: seq<CountryGroup>): (r: seq<CountryGroup>)
    ensures |r| == |groups|
    ensures forall i :: 0 <= i < |r| ==> r[i].country == groups[i].country && r[i].cities == SortCities(groups[i].cities)
  {
    seq(|groups|, i requires 0 <= i < |groups| => CountryGroup(groups[i].country, SortCities(groups[i].cities)))
  }

  /** The markers of one continent, in query order. */
  function MarkersOf(markers: seq<MarkerRow>, continentId: nat): (r: seq<MarkerRow>)
    ensures forall k :: 0 <= k < |r| ==> r[k].continentId == continentId && r[k] in markers
    ensures forall m :: m in markers && m.continentId == continentId ==> m in r
  {
    if markers == [] then []
    else
      var rest := MarkersOf(markers[..|markers| - 1], continentId);
      var m := markers[|markers| - 1];
      assert forall x :: x in markers ==> x in markers[..|markers| - 1] || x == m;
      if m.continentId == continentId then rest + [m] else rest
  }

  /** The photos of one continent, in query order. */
  function PhotosFor(photos: seq<PhotoRow>, continentId: nat): (r: seq<PublicPhoto>)
    ensures |r| <= |photos|
  {
    if photos == [] then []
    else
      var rest := PhotosFor(photos[..|photos| - 1], continentId);
      var p := photos[|photos| - 1];
      if p.continentId == continentId then rest + [PublicPhotoOf(p)] else rest
  }

  /** The public shape of a photo row: id, url and sort order; the sort order column is an integer, so `Number(...) || 0` keeps it. */
  function PublicPhotoOf(p: PhotoRow): PublicPhoto
  {
    PublicPhoto(p.id, p.url, p.sortOrder)
  }

  /** The photos of a concatenated query are those of each part, in order. */
  lemma {:induction false} PhotosForAppend(a: seq<PhotoRow>, b: seq<PhotoRow>, continentId: nat)
    ensures PhotosFor(a + b, continentId) == PhotosFor(a, continentId) + PhotosFor(b, continentId)
    decreases |b|
  {
    if b == [] {
      assert a + b == a;
    } else {
      var init, last := b[..|b| - 1], b[|b| - 1];
      PhotosForAppend(a, init, continentId);
      assert (a + b)[..|a + b| - 1] == a + init && (a + b)[|a + b| - 1] == last;
      var tail := if last.continentId == continentId then [PublicPhotoOf(last)] else [];
      assert PhotosFor(b, continentId) == PhotosFor(init, continentId) + tail;
      assert PhotosFor(a + b, continentId) == PhotosFor(a + init, continentId) + tail;
    }
  }

  /** A photo row contributes one public photo when it belongs to the continent and none otherwise. */
  lemma PhotosForOne(p: PhotoRow, continentId: nat)
    ensures PhotosFor([p], continentId) == if p.continentId == continentId then [PublicPhotoOf(p)] else []
  {
    assert [p][..0] == [];
  }

  /** Every photo of the continent is served, and nothing else is. */
  lemma {:induction false} PhotosForMembers(photos: seq<PhotoRow>, continentId: nat)
    ensures forall p :: p in photos && p.continentId == continentId ==> PublicPhotoOf(p) in PhotosFor(photos, continentId)
    ensures forall q :: q in PhotosFor(photos, continentId) ==>
      exists p :: p in photos && p.continentId == continentId && q == PublicPhotoOf(p)
  {
    if photos != [] {
      var init := photos[..|photos| - 1];
      PhotosForMembers(init, continentId);
      assert photos == init + [photos[|photos| - 1]];
      forall p | p in photos
        ensures p in init || p == photos[|photos| - 1]
      {
      }
    }
  }

  function PublicContinentOf(c: ContinentHead, photos: seq<PhotoRow>, markers: seq<MarkerRow>): PublicContinent
  {
    PublicContinent(c.id, c.name, c.code, c.description, PhotosFor(photos, c.id),
                    SortGroups(GroupByCountry(MarkersOf(markers, c.id))))
  }

  /** What `fetchForPublic` serves, continent by continent in query order. */
  function PublicView(continents: seq<ContinentHead>, photos: seq<PhotoRow>, markers: seq<MarkerRow>): (r: seq<PublicContinent>)
    ensures |r| == |continents|
  {
    seq(|continents|, i requires 0 <= i < |continents| => PublicContinentOf(continents[i], photos, markers))
  }

  /**
   * Every listed marker of a served continent appears under that continent,
   * in the group of its own country, and in no other group of it; the
   * cities of every group are ordered by sort order, then id.
   */
  lemma PublicPlacesMarker(continents: seq<ContinentHead>, photos: seq<PhotoRow>, markers: seq<MarkerRow>, i: nat, m: MarkerRow)
    requires i < |continents| && m in markers && m.continentId == continents[i].id
    ensures var groups := PublicView(continents, photos, markers)[i].countries;
            exists g :: 0 <= g < |groups| && groups[g].country == CountryName(m.country) && CityOf(m) in groups[g].cities
    ensures var groups := PublicView(continents, photos, markers)[i].countries;
            forall g :: 0 <= g < |groups| && CityOf(m) in groups[g].cities ==> groups[g].country == CountryName(m.country)
    ensures var groups := PublicView(continents, photos, markers)[i].countries;
            forall g :: 0 <= g < |groups| ==> CitiesSorted(groups[g].cities)
  {
    var ms := MarkersOf(markers, continents[i].id);
    var j :| 0 <= j < |ms| && ms[j] == m;
    MarkerPlacedOnce(ms, j);
    var raw := GroupByCountry(ms);
    var groups := SortGroups(raw);
    assert PublicView(continents, photos, markers)[i].countries == groups;
    forall g | 0 <= g < |groups|
      ensures CityOf(m) in groups[g].cities <==> CityOf(m) in raw[g].cities
    {
      assert multiset(groups[g].cities) == multiset(raw[g].cities);
      assert CityOf(m) in groups[g].cities <==> CityOf(m) in multiset(groups[g].cities);
    }
  }

  /** `countriesMap` built marker by marker. */
  method GroupCountries(ms: seq<MarkerRow>) returns (groups: seq<CountryGroup>)
    ensures groups == GroupByCountry(ms)
  {
    groups := [];
    var i := 0;
    while i < |ms|
      invariant 0 <= i <= |ms|
      invariant groups == GroupByCountry(ms[..i])
    {
      var city := CityOf(ms[i]);
      var k := IndexOfCountry(groups, city.country, 0);
      if k.Some? {
        groups := groups[k.value := CountryGroup(city.country, groups[k.value].cities + [city])];
      } else {
        groups := groups + [CountryGroup(city.country, [city])];
      }
      assert ms[..i + 1][..i] == ms[..i];
      i := i + 1;
    }
    assert ms[..|ms|] == ms;
  }

  /** `fetchForPublic`, given the rows of its three queries. */
  method FetchForPublic(continents: seq<ContinentHead>, photos: seq<PhotoRow>, markers: seq<MarkerRow>)
    returns (result: seq<PublicContinent>)
    ensures result == PublicView(continents, photos, markers)
  {
    result := [];
    var i := 0;
    while i < |continents|
      invariant 0 <= i <= |continents|
      invariant |result| == i
      invariant forall k :: 0 <= k < i ==> result[k] == PublicContinentOf(continents[k], photos, markers)
    {
      var c := continents[i];
      var groups := GroupCountries(MarkersOf(markers, c.id));
      result := result + [PublicContinent(c.id, c.name, c.code, c.description, PhotosFor(photos, c.id), SortGroups(groups))];
      i := i + 1;
    }
  }
}
