/**
 * The bulk marker import of the map admin routes: each input marker is
 * placed under its continent (created from the static catalog when the
 * table lacks it), checked for a usable location and for an existing
 * marker at the same place, and then created; every input is answered with
 * one result and counted as created, skipped or failed.
 */
module MapRoute {
  import opened JsRuntime
  import MC = MapContinentModel
  import LC = LocationCatalog

  /** One element of the request's `markers`; coordinates are left out. */
  datatype MarkerInput = MarkerInput(continentCode: Json, country: Json, countryCode: Json, city: Json, sortOrder: Json, status: Json)

  /** A `map_markers` row. */
  datatype Marker = Marker(id: nat, continentId: nat, country: string, city: string, sortOrder: int, status: Json)

  /** The two tables the import reads and writes, with their next auto-increment ids. */
  datatype Store = Store(continents: seq<(nat, MC.Continent)>, markers: seq<Marker>, nextContinentId: nat, nextMarkerId: nat)

  /** How the automatic continent insert ends: it succeeds, hits a duplicate key, or fails otherwise. */
  datatype CreateFault = NoFault | DuplicateEntry | OtherFault

  /**
   * The failures the database may raise for one input: on the continent
   * insert, and on the marker insert with the error's message.
   */
  datatype Fault = Fault(continentCreate: CreateFault, markerCreate: Option<string>)

  datatype ItemStatus = Created | Skipped | Failed

  /** One entry of `results`: the echoed input, its status, its reason ("" for none) and its marker id. */
  datatype ItemResult = ItemResult(
    city: Json, country: Json, continentCode: Json, countryCode: Json,
    status: ItemStatus, reason: string, markerId: Option<nat>)

  datatype Summary = Summary(total: nat, created: nat, skipped: nat, failed: nat)

  /** The result of an input before its status is known. */
  function Echo(input: MarkerInput, status: ItemStatus, reason: string, markerId: Option<nat>): ItemResult
  {
    ItemResult(input.city, input.country, input.continentCode, OrValue(input.countryCode, JStr("")), status, reason, markerId)
  }

  // ---------------------------------------------------------------------
  // The continent of an input
  // ---------------------------------------------------------------------

  /** The continent code of an input, printed as text (missing is empty) and lower-cased. */
  function ContinentKey(input: MarkerInput): (key: string)
    ensures IsLower(key)
  {
    ToLower(ToStr(OrValue(input.continentCode, JStr(""))))
  }

  /** The row created for a catalog continent: its Chinese, else English, else upper-cased code as name. */
  function AutoRow(meta: LC.ContinentMeta): MC.Continent
  {
    var name := if meta.nameZh != "" then meta.nameZh else if meta.nameEn != "" then meta.nameEn else ToUpper(meta.code);
    MC.RowOf(MC.ContinentInput(name, JStr(meta.code), JStr(meta.nameEn), JNum(0), JStr("enabled"), JArr([])), Some(Trim(meta.code)))
  }

  datatype Resolution = Resolved(store: Store, id: nat) | Unresolved(store: Store, reason: string)

  /**
   * The continent an input goes under: the table's continent with that
   * code; else, for a catalog continent, a new row (see `AutoCreate`).
   */
  function Resolve(s: Store, key: string, fault: CreateFault): (r: Resolution)
    ensures s.continents <= r.store.continents && r.store.markers == s.markers && r.store.nextMarkerId == s.nextMarkerId
  {
    match MC.FindByCode(s.continents, JStr(key))
    case Some(id) => Resolved(s, id)
    case None =>
      match LC.GetContinentMeta(JStr(key))
      case None => Unresolved(s, "continent_not_found")
      case Some(meta) => AutoCreate(s, meta, fault)
  }

  /**
   * The automatic insert of a catalog continent, after which the continent
   * is looked up again by its code; on a duplicate key only the lookup is
   * repeated, and any other failure is reported.
   */
  function AutoCreate(s: Store, meta: LC.ContinentMeta, fault: CreateFault): (r: Resolution)
    ensures fault != NoFault ==> r.store == s
    ensures fault == NoFault ==> r.store.continents == s.continents + [(s.nextContinentId, AutoRow(meta))]
    ensures r.store.markers == s.markers && r.store.nextMarkerId == s.nextMarkerId
  {
    match fault
    case OtherFault => Unresolved(s, "continent_create_failed")
    case DuplicateEntry =>
      (match MC.FindByCode(s.continents, JStr(meta.code))
       case Some(id) => Resolved(s, id)
       case None => Unresolved(s, "continent_resolve_failed"))
    case NoFault =>
      var id := s.nextContinentId;
      var s1 := s.(continents := s.continents + [(id, AutoRow(meta))], nextContinentId := id + 1);
      match MC.FindByCode(s1.continents, JStr(meta.code))
      case Some(found) => Resolved(s1, found)
      case None => if id != 0 then Resolved(s1, id) else Unresolved(s1, "continent_resolve_failed")
  }

  /** The table maps the continent key to this continent. */
  predicate Resolves(s: Store, key: string, continentId: nat)
  {
    MC.FindByCode(s.continents, JStr(key)) == Some(continentId)
  }

  /** Every catalog code is lower-case, non-empty and has nothing to trim. */
  lemma CatalogCodeClean(meta: LC.ContinentMeta)
    requires meta in LC.ListContinents()
    ensures meta.code != "" && IsLower(meta.code) && Trim(meta.code) == meta.code
  {
    var i :| 0 <= i < |LC.ListContinents()| && LC.ListContinents()[i] == meta;
    LC.ListedCodes();
    assert LC.CleanCode(meta.code);
    TrimOfTrimmed(meta.code);
  }

  /**
   * The lookup of an input's continent: the table's match comes first, and
   * a code that neither the table nor the catalog knows fails as not found.
   */
  lemma ResolveFound(s: Store, key: string, fault: CreateFault)
    ensures MC.FindByCode(s.continents, JStr(key)).Some? ==>
              Resolve(s, key, fault) == Resolved(s, MC.FindByCode(s.continents, JStr(key)).value)
    ensures MC.FindByCode(s.continents, JStr(key)).None? && LC.GetContinentMeta(JStr(key)).None? ==>
              Resolve(s, key, fault) == Unresolved(s, "continent_not_found")
  {
  }

  /**
   * A catalog continent the table lacks is created and used under its new
   * id; a duplicate key then finds nothing, and another failure is reported.
   */
  lemma ResolveCreates(s: Store, key: string, fault: CreateFault)
    requires IsLower(key)
    requires MC.FindByCode(s.continents, JStr(key)).None? && LC.GetContinentMeta(JStr(key)).Some?
    ensures fault == NoFault ==> Resolve(s, key, fault) == Resolved(
              s.(continents := s.continents + [(s.nextContinentId, AutoRow(LC.GetContinentMeta(JStr(key)).value))],
                 nextContinentId := s.nextContinentId + 1),
              s.nextContinentId)
    ensures fault == NoFault ==> Resolves(Resolve(s, key, fault).store, key, s.nextContinentId)
    ensures fault == DuplicateEntry ==> Resolve(s, key, fault) == Unresolved(s, "continent_resolve_failed")
    ensures fault == OtherFault ==> Resolve(s, key, fault) == Unresolved(s, "continent_create_failed")
  {
    var meta := LC.GetContinentMeta(JStr(key)).value;
    assert Resolve(s, key, fault) == AutoCreate(s, meta, fault);
    CatalogCodeClean(meta);
    LowerOfLower(key);
    assert meta.code == key;
    var row := (s.nextContinentId, AutoRow(meta));
    assert MC.CodeMatches(row.1, key);
    MC.FirstByCodeExtend(s.continents, [row], key, 0);
  }

  // ---------------------------------------------------------------------
  // The marker of an input
  // ---------------------------------------------------------------------

  /** The trimmed `country`, else the trimmed, upper-cased `countryCode`. */
  function CountryNameOf(input: MarkerInput): string
  {
    var name := if input.country.JStr? then Trim(input.country.s) else "";
    var code := if input.countryCode.JStr? then ToUpper(Trim(input.countryCode.s)) else "";
    if name != "" then name else code
  }

  /** The trimmed `city`. */
  function CityNameOf(input: MarkerInput): string
  {
    if input.city.JStr? then Trim(input.city.s) else ""
  }

  predicate AtPlace(m: Marker, continentId: nat, country: string, city: string)
  {
    m.continentId == continentId && m.country == country && m.city == city
  }

  /** `findByContinentCountryCity`: the id of the first marker at that place. */
  function FindMarker(markers: seq<Marker>, continentId: nat, country: string, city: string): (r: Option<nat>)
    ensures r.Some? <==> exists k :: 0 <= k < |markers| && AtPlace(markers[k], continentId, country, city)
    ensures r.Some? ==> exists k :: 0 <= k < |markers| && AtPlace(markers[k], continentId, country, city) && markers[k].id == r.value
  {
    if markers == [] then None
    else if AtPlace(markers[0], continentId, country, city) then Some(markers[0].id)
    else
      var rest := FindMarker(markers[1..], continentId, country, city);
      assert forall k :: 1 <= k < |markers| ==> markers[k] == markers[1..][k - 1];
      rest
  }

  /**
   * The marker step once the continent is known: an empty country or city
   * fails, an existing marker at the place is skipped, and otherwise one
   * marker is inserted, unless the insert fails.
   */
  function Place(s: Store, continentId: nat, input: MarkerInput, fault: Option<string>): (r: (Store, ItemResult))
    ensures r.0.continents == s.continents && s.markers <= r.0.markers
    ensures r.1.status != Created ==> r.0 == s
    ensures r.1.status != Failed ==> CountryNameOf(input) != "" && CityNameOf(input) != ""
    ensures r.1 == Echo(input, r.1.status, r.1.reason, r.1.markerId)
  {
    var country := CountryNameOf(input);
    var city := CityNameOf(input);
    if country == "" || city == "" then (s, Echo(input, Failed, "invalid_location", None))
    else
      match FindMarker(s.markers, continentId, country, city)
      case Some(existing) => (s, Echo(input, Skipped, "exists", Some(existing)))
      case None =>
        match fault
        case Some(message) => (s, Echo(input, Failed, if message != "" then message else "unknown_error", None))
        case None =>
          var id := s.nextMarkerId;
          var m := Marker(id, continentId, country, city, MC.FiniteOr(input.sortOrder, 0), OrValue(input.status, JStr("enabled")));
          (s.(markers := s.markers + [m], nextMarkerId := id + 1), Echo(input, Created, "", if id != 0 then Some(id) else None))
  }

  /** One input of the loop. */
  function ImportOne(s: Store, input: MarkerInput, fault: Fault): (r: (Store, ItemResult))
    ensures s.continents <= r.0.continents && s.markers <= r.0.markers
    ensures r.1 == Echo(input, r.1.status, r.1.reason, r.1.markerId)
  {
    match Resolve(s, ContinentKey(input), fault.continentCreate)
    case Unresolved(s1, reason) => (s1, Echo(input, Failed, reason, None))
    case Resolved(s1, continentId) => Place(s1, continentId, input, fault.markerCreate)
  }

  /**
   * The place check of one input: a missing country and country code, or a
   * missing city, fails it; a marker already there skips it and names that
   * marker; otherwise exactly one marker is added there, enabled unless the
   * input says otherwise, with the input's sort order or 0.
   */
  lemma PlaceCases(s: Store, continentId: nat, input: MarkerInput, fault: Option<string>)
    ensures CountryNameOf(input) == "" || CityNameOf(input) == "" ==>
              Place(s, continentId, input, fault) == (s, Echo(input, Failed, "invalid_location", None))
    ensures CountryNameOf(input) != "" && CityNameOf(input) != ""
              && (exists k :: 0 <= k < |s.markers| && AtPlace(s.markers[k], continentId, CountryNameOf(input), CityNameOf(input))) ==>
              var r := Place(s, continentId, input, fault);
              r.0 == s && r.1.status == Skipped && r.1.reason == "exists" && r.1.markerId.Some?
              && exists k :: 0 <= k < |s.markers| && AtPlace(s.markers[k], continentId, CountryNameOf(input), CityNameOf(input))
                             && s.markers[k].id == r.1.markerId.value
    ensures CountryNameOf(input) != "" && CityNameOf(input) != "" && fault.Some?
              && !(exists k :: 0 <= k < |s.markers| && AtPlace(s.markers[k], continentId, CountryNameOf(input), CityNameOf(input))) ==>
              Place(s, continentId, input, fault)
                == (s, Echo(input, Failed, if fault.value != "" then fault.value else "unknown_error", None))
    ensures Place(s, continentId, input, fault).1.status == Created ==>
              var m := Place(s, continentId, input, fault).0.markers[|s.markers|];
              Place(s, continentId, input, fault).0.markers == s.markers + [m]
              && m.id == s.nextMarkerId && AtPlace(m, continentId, CountryNameOf(input), CityNameOf(input))
              && Place(s, continentId, input, fault).1.reason == ""
              && Place(s, continentId, input, fault).1.markerId == (if m.id != 0 then Some(m.id) else None)
              && fault.None?
              && (m.status == if Truthy(input.status) then input.status else JStr("enabled"))
              && m.sortOrder == MC.FiniteOr(input.sortOrder, 0)
              && !(exists k :: 0 <= k < |s.markers| && AtPlace(s.markers[k], continentId, CountryNameOf(input), CityNameOf(input)))
    ensures Place(s, continentId, input, fault).1.status != Created ==> Place(s, continentId, input, fault).0 == s
  {
  }

  // ---------------------------------------------------------------------
  // The loop
  // ---------------------------------------------------------------------

  /** What one input does to the tables, and the result it gets. */
  type Step = (Store, MarkerInput, Fault) -> (Store, ItemResult)

  /** The tables and results after the first `n` inputs, each taken by `step` from the tables the previous left. */
  function Run(step: Step, s: Store, inputs: seq<MarkerInput>, faults: nat -> Fault, n: nat): (r: (Store, seq<ItemResult>))
    requires n <= |inputs|
    ensures |r.1| == n
  {
    if n == 0 then (s, [])
    else
      var prev := Run(step, s, inputs, faults, n - 1);
      var next := step(prev.0, inputs[n - 1], faults(n - 1));
      (next.0, prev.1 + [next.1])
  }

  /** The result of input `i` is its step from the tables the inputs before it left. */
  lemma {:induction false} RunAt(step: Step, s: Store, inputs: seq<MarkerInput>, faults: nat -> Fault, n: nat, i: nat)
    requires i < n <= |inputs|
    ensures Run(step, s, inputs, faults, n).1[i] == step(Run(step, s, inputs, faults, i).0, inputs[i], faults(i)).1
    decreases n
  {
    if i < n - 1 {
      RunAt(step, s, inputs, faults, n - 1, i);
    }
  }

  /** Later inputs leave the result of input `i` as it was. */
  lemma ResultStable(step: Step, s: Store, inputs: seq<MarkerInput>, faults: nat -> Fault, n: nat, i: nat)
    requires i < n <= |inputs|
    ensures Run(step, s, inputs, faults, n).1[i] == Run(step, s, inputs, faults, i + 1).1[i]
  {
    RunAt(step, s, inputs, faults, n, i);
    RunAt(step, s, inputs, faults, i + 1, i);
  }

  /** One more input: its step from where the previous inputs left the tables. */
  lemma RunSnoc(step: Step, s: Store, inputs: seq<MarkerInput>, faults: nat -> Fault, i: nat)
    requires i < |inputs|
    ensures var prev := Run(step, s, inputs, faults, i);
            var next := step(prev.0, inputs[i], faults(i));
            Run(step, s, inputs, faults, i + 1) == (next.0, prev.1 + [next.1])
  {
  }

  /** A property of the tables that every step keeps holds from the `m`-th input on. */
  lemma {:induction false} RunKeeps(step: Step, keep: Store -> bool, s: Store, inputs: seq<MarkerInput>, faults: nat -> Fault, m: nat, n: nat)
    requires m <= n <= |inputs|
    requires forall st, input, fault :: keep(st) ==> keep(step(st, input, fault).0)
    requires keep(Run(step, s, inputs, faults, m).0)
    ensures keep(Run(step, s, inputs, faults, n).0)
    decreases n - m
  {
    if m < n {
      RunKeeps(step, keep, s, inputs, faults, m, n - 1);
    }
  }

  /** How many results have this status. */
  function Count(results: seq<ItemResult>, status: ItemStatus): (c: nat)
    ensures c <= |results|
  {
    if results == [] then 0
    else Count(results[..|results| - 1], status) + (if results[|results| - 1].status == status then 1 else 0)
  }

  /** Counting one more result. */
  lemma CountSnoc(results: seq<ItemResult>, item: ItemResult, status: ItemStatus)
    ensures Count(results + [item], status) == Count(results, status) + if item.status == status then 1 else 0
  {
    assert (results + [item])[..|results|] == results;
  }

  /** Every result is counted under exactly one status. */
  lemma {:induction false} CountsAddUp(results: seq<ItemResult>)
    ensures Count(results, Created) + Count(results, Skipped) + Count(results, Failed) == |results|
  {
    if results != [] {
      CountsAddUp(results[..|results| - 1]);
    }
  }

  /** The import answers the inputs one for one, in order, each result echoing its input. */
  lemma ResultsEchoInputs(s: Store, inputs: seq<MarkerInput>, faults: nat -> Fault, i: nat)
    requires i < |inputs|
    ensures var item := Run(ImportOne, s, inputs, faults, |inputs|).1[i];
            item.city == inputs[i].city && item.country == inputs[i].country
            && item.continentCode == inputs[i].continentCode
            && item.countryCode == OrValue(inputs[i].countryCode, JStr(""))
  {
    RunAt(ImportOne, s, inputs, faults, |inputs|, i);
  }

  // ---------------------------------------------------------------------
  // A place is never imported twice
  // ---------------------------------------------------------------------

  /** A marker exists at that place. */
  predicate HasPlace(s: Store, continentId: nat, country: string, city: string)
  {
    exists k :: 0 <= k < |s.markers| && AtPlace(s.markers[k], continentId, country, city)
  }

  /** What the tables know stays known: continent lookups and markers survive later inputs. */
  lemma ImportOneKeeps(s: Store, input: MarkerInput, fault: Fault, key: string, continentId: nat, country: string, city: string)
    requires Resolves(s, key, continentId) && HasPlace(s, continentId, country, city)
    ensures Resolves(ImportOne(s, input, fault).0, key, continentId)
    ensures HasPlace(ImportOne(s, input, fault).0, continentId, country, city)
  {
    var s1 := ImportOne(s, input, fault).0;
    var more := s1.continents[|s.continents|..];
    assert s1.continents == s.continents + more;
    MC.FirstByCodeExtend(s.continents, more, ToLower(ToStr(JStr(key))), 0);
    var k :| 0 <= k < |s.markers| && AtPlace(s.markers[k], continentId, country, city);
    assert s1.markers[k] == s.markers[k];
  }

  /** An input created or skipped leaves its continent found by its key and a marker at its place. */
  lemma ImportOneRecords(s: Store, input: MarkerInput, fault: Fault)
    requires ImportOne(s, input, fault).1.status != Failed
    ensures exists continentId ::
              Resolves(ImportOne(s, input, fault).0, ContinentKey(input), continentId)
              && HasPlace(ImportOne(s, input, fault).0, continentId, CountryNameOf(input), CityNameOf(input))
  {
    var key := ContinentKey(input);
    var res := Resolve(s, key, fault.continentCreate);
    ResolveFound(s, key, fault.continentCreate);
    if MC.FindByCode(s.continents, JStr(key)).None? {
      ResolveCreates(s, key, fault.continentCreate);
    }
    assert res.Resolved?;
    assert Resolves(res.store, key, res.id);
    PlaceCases(res.store, res.id, input, fault.markerCreate);
    var s2 := ImportOne(s, input, fault).0;
    if ImportOne(s, input, fault).1.status == Created {
      var m := s2.markers[|res.store.markers|];
      assert s2.markers == res.store.markers + [m];
      assert s2.continents == res.store.continents;
      assert AtPlace(s2.markers[|res.store.markers|], res.id, CountryNameOf(input), CityNameOf(input));
    }
    assert Resolves(s2, key, res.id);
    assert HasPlace(s2, res.id, CountryNameOf(input), CityNameOf(input));
  }

  /** An input that is not failed had a country and a city. */
  lemma PlaceNeedsLocation(s: Store, input: MarkerInput, fault: Fault)
    requires ImportOne(s, input, fault).1.status != Failed
    ensures CountryNameOf(input) != "" && CityNameOf(input) != ""
  {
  }

  /** An input whose continent is found and whose place is taken is skipped, whatever the faults. */
  lemma ImportOneSkipsTaken(s: Store, input: MarkerInput, fault: Fault, continentId: nat)
    requires Resolves(s, ContinentKey(input), continentId)
    requires CountryNameOf(input) != "" && CityNameOf(input) != ""
    requires HasPlace(s, continentId, CountryNameOf(input), CityNameOf(input))
    ensures ImportOne(s, input, fault).1.status == Skipped
    ensures ImportOne(s, input, fault).0 == s
  {
    PlaceCases(s, continentId, input, fault.markerCreate);
  }

  /** After an input that is not failed, its continent is found by its key and its place is taken. */
  lemma RecordedAfter(s: Store, inputs: seq<MarkerInput>, faults: nat -> Fault, i: nat) returns (continentId: nat)
    requires i < |inputs|
    requires Run(ImportOne, s, inputs, faults, i + 1).1[i].status != Failed
    ensures Resolves(Run(ImportOne, s, inputs, faults, i + 1).0, ContinentKey(inputs[i]), continentId)
    ensures HasPlace(Run(ImportOne, s, inputs, faults, i + 1).0, continentId, CountryNameOf(inputs[i]), CityNameOf(inputs[i]))
  {
    RunSnoc(ImportOne, s, inputs, faults, i);
    var before := Run(ImportOne, s, inputs, faults, i).0;
    ImportOneRecords(before, inputs[i], faults(i));
    continentId :| Resolves(ImportOne(before, inputs[i], faults(i)).0, ContinentKey(inputs[i]), continentId)
                   && HasPlace(ImportOne(before, inputs[i], faults(i)).0, continentId, CountryNameOf(inputs[i]), CityNameOf(inputs[i]));
  }

  /** A continent found and a place taken after `m` inputs stay so after `n`. */
  lemma KnownLater(s: Store, inputs: seq<MarkerInput>, faults: nat -> Fault, m: nat, n: nat,
                   key: string, continentId: nat, country: string, city: string)
    requires m <= n <= |inputs|
    requires Resolves(Run(ImportOne, s, inputs, faults, m).0, key, continentId)
    requires HasPlace(Run(ImportOne, s, inputs, faults, m).0, continentId, country, city)
    ensures Resolves(Run(ImportOne, s, inputs, faults, n).0, key, continentId)
    ensures HasPlace(Run(ImportOne, s, inputs, faults, n).0, continentId, country, city)
  {
    var keep := (st: Store) => Resolves(st, key, continentId) && HasPlace(st, continentId, country, city);
    forall st, input, fault | keep(st)
      ensures keep(ImportOne(st, input, fault).0)
    {
      ImportOneKeeps(st, input, fault, key, continentId, country, city);
    }
    RunKeeps(ImportOne, keep, s, inputs, faults, m, n);
  }

  /**
   * Once an input is created or skipped, a later input in the same batch
   * with the same continent code and place is skipped.
   */
  lemma SamePlaceSkippedLater(s: Store, inputs: seq<MarkerInput>, faults: nat -> Fault, i: nat, j: nat)
    requires i < j < |inputs|
    requires Run(ImportOne, s, inputs, faults, |inputs|).1[i].status != Failed
    requires ContinentKey(inputs[j]) == ContinentKey(inputs[i])
    requires CountryNameOf(inputs[j]) == CountryNameOf(inputs[i]) && CityNameOf(inputs[j]) == CityNameOf(inputs[i])
    ensures Run(ImportOne, s, inputs, faults, |inputs|).1[j].status == Skipped
  {
    var continentId := FirstRecorded(s, inputs, faults, i);
    var (key, country, city) := (ContinentKey(inputs[i]), CountryNameOf(inputs[i]), CityNameOf(inputs[i]));
    KnownLater(s, inputs, faults, i + 1, j, key, continentId, country, city);
    StatusOfStep(s, inputs, faults, j);
    ImportOneSkipsTaken(Run(ImportOne, s, inputs, faults, j).0, inputs[j], faults(j), continentId);
  }

  /** The continent of a key is found under this id, and the place is taken on it. */
  predicate Recorded(s: Store, key: string, continentId: nat, country: string, city: string)
  {
    Resolves(s, key, continentId) && HasPlace(s, continentId, country, city)
  }

  /** An input that is not failed leaves its continent and place recorded, and it had a country and a city. */
  lemma FirstRecorded(s: Store, inputs: seq<MarkerInput>, faults: nat -> Fault, i: nat) returns (continentId: nat)
    requires i < |inputs|
    requires Run(ImportOne, s, inputs, faults, |inputs|).1[i].status != Failed
    ensures CountryNameOf(inputs[i]) != "" && CityNameOf(inputs[i]) != ""
    ensures Recorded(Run(ImportOne, s, inputs, faults, i + 1).0, ContinentKey(inputs[i]), continentId,
      CountryNameOf(inputs[i]), CityNameOf(inputs[i]))
  {
    StatusOfStep(s, inputs, faults, i);
    PlaceNeedsLocation(Run(ImportOne, s, inputs, faults, i).0, inputs[i], faults(i));
    continentId := RecordedAfter(s, inputs, faults, i);
  }

  /** The result of the `k`-th input is that of its own step, taken where the earlier inputs left the tables. */
  lemma StatusOfStep(s: Store, inputs: seq<MarkerInput>, faults: nat -> Fault, k: nat)
    requires k < |inputs|
    ensures Run(ImportOne, s, inputs, faults, |inputs|).1[k]
      == ImportOne(Run(ImportOne, s, inputs, faults, k).0, inputs[k], faults(k)).1
    ensures Run(ImportOne, s, inputs, faults, k + 1).1[k]
      == ImportOne(Run(ImportOne, s, inputs, faults, k).0, inputs[k], faults(k)).1
  {
    ResultStable(ImportOne, s, inputs, faults, |inputs|, k);
    RunSnoc(ImportOne, s, inputs, faults, k);
  }

  // ---------------------------------------------------------------------
  // The route's state
  // ---------------------------------------------------------------------

  /** The continent and marker tables the import writes to. */
  class MapTables {
    var continents: seq<(nat, MC.Continent)>
    var markers: seq<Marker>
    var nextContinentId: nat
    var nextMarkerId: nat

    function State(): Store
      reads this
    {
      Store(continents, markers, nextContinentId, nextMarkerId)
    }

    constructor (continents: seq<(nat, MC.Continent)>, markers: seq<Marker>, nextContinentId: nat, nextMarkerId: nat)
      ensures State() == Store(continents, markers, nextContinentId, nextMarkerId)
    {
      this.continents := continents;
      this.markers := markers;
      this.nextContinentId := nextContinentId;
      this.nextMarkerId := nextMarkerId;
    }

    /** Finds or creates the continent an input goes under. */
    method ResolveContinent(key: string, fault: CreateFault) returns (id: Option<nat>, reason: string)
      modifies this
      ensures State() == Resolve(old(State()), key, fault).store
      ensures Resolve(old(State()), key, fault).Resolved? ==> id == Some(Resolve(old(State()), key, fault).id)
      ensures Resolve(old(State()), key, fault).Unresolved? ==> id.None? && reason == Resolve(old(State()), key, fault).reason
    {
      id := MC.FindByCode(continents, JStr(key));
      reason := "";
      if id.Some? {
        return;
      }
      var meta := LC.GetContinentMeta(JStr(key));
      if meta.None? {
        reason := "continent_not_found";
        return;
      }
      match fault
      case OtherFault =>
        reason := "continent_create_failed";
      case DuplicateEntry =>
        id := MC.FindByCode(continents, JStr(meta.value.code));
        if id.None? {
          reason := "continent_resolve_failed";
        }
      case NoFault =>
        var created := nextContinentId;
        continents := continents + [(created, AutoRow(meta.value))];
        nextContinentId := nextContinentId + 1;
        id := MC.FindByCode(continents, JStr(meta.value.code));
        if id.None? && created != 0 {
          id := Some(created);
        } else if id.None? {
          reason := "continent_resolve_failed";
        }
    }

    /** Places one input's marker under a known continent. */
    method PlaceMarker(continentId: nat, input: MarkerInput, fault: Option<string>) returns (item: ItemResult)
      modifies this
      ensures (State(), item) == Place(old(State()), continentId, input, fault)
    {
      var country := CountryNameOf(input);
      var city := CityNameOf(input);
      if country == "" || city == "" {
        return Echo(input, Failed, "invalid_location", None);
      }
      var existing := FindMarker(markers, continentId, country, city);
      if existing.Some? {
        return Echo(input, Skipped, "exists", existing);
      }
      if fault.Some? {
        return Echo(input, Failed, if fault.value != "" then fault.value else "unknown_error", None);
      }
      var id := nextMarkerId;
      markers := markers + [Marker(id, continentId, country, city, MC.FiniteOr(input.sortOrder, 0), OrValue(input.status, JStr("enabled")))];
      nextMarkerId := nextMarkerId + 1;
      item := Echo(input, Created, "", if id != 0 then Some(id) else None);
    }

    /** One input: its continent, then its marker. */
    method ImportItem(input: MarkerInput, fault: Fault) returns (item: ItemResult)
      modifies this
      ensures (State(), item) == ImportOne(old(State()), input, fault)
    {
      var continentId, reason := ResolveContinent(ContinentKey(input), fault.continentCreate);
      if continentId.None? {
        item := Echo(input, Failed, reason, None);
      } else {
        item := PlaceMarker(continentId.value, input, fault.markerCreate);
      }
    }

    /** `POST /markers/bulk`: every input answered in order, and the tallies. */
    method ImportMarkers(inputs: seq<MarkerInput>, faults: nat -> Fault) returns (summary: Summary, results: seq<ItemResult>)
      modifies this
      ensures (State(), results) == Run(ImportOne, old(State()), inputs, faults, |inputs|)
      ensures summary == Summary(|inputs|, Count(results, Created), Count(results, Skipped), Count(results, Failed))
    {
      ghost var s := State();
      results := [];
      var created, skipped, failed := 0, 0, 0;
      for i := 0 to |inputs|
        invariant (State(), results) == Run(ImportOne, s, inputs, faults, i)
        invariant created == Count(results, Created) && skipped == Count(results, Skipped) && failed == Count(results, Failed)
      {
        var input := inputs[i];
        var fault := faults(i);
        RunSnoc(ImportOne, s, inputs, faults, i);
        var item := ImportItem(input, fault);
        CountSnoc(results, item, Created);
        CountSnoc(results, item, Skipped);
        CountSnoc(results, item, Failed);
        match item.status {
          case Created => created := created + 1;
          case Skipped => skipped := skipped + 1;
          case Failed => failed := failed + 1;
        }
        results := results + [item];
      }
      summary := Summary(|inputs|, created, skipped, failed);
    }
  }
}
