# mpea_admin backend core, modelled in Dafny

mpea_admin is the admin backend of an association's website: an Express
server over MySQL. It serves the public pages and an admin panel. This
project models the parts of it that make decisions, not the ones that
only pass data to SQL:

- **Translation key engine** (`Translation` and `TranslationKeys`).
  - Sanitising keys and deriving their namespace.
  - Normalising locale values.
  - Flattening a nested locale payload into dotted keys, and assembling dotted keys back into a tree.
  - The `translations` table: create, update, delete, the per-key locale upsert, locale import and locale export.
- **Admin translations router** (`TranslationsRoute`): the accepted locale list, the value normaliser, and the request gates of POST, PUT and POST /import.
- **Public router** (`PublicRoute`): locale negotiation, the message table, the per-address contact-form rate limiter, the certificate search key, and the input gate of the continent-photos lookup.
- **Location catalog service** (`LocationCatalog`): the static continent table, the region/subregion resolver, continent lookups, the expiring caches, and the guard and cache path of the country list.
- **Map models and the bulk marker import** (`MapContinentModel`, `MapMarkerModel`, `MapRoute`):
  - Photo-list normalisation.
  - The list windows.
  - The create/update transaction.
  - Continent lookups.
  - The continent → country → city grouping of the public map.
  - The `/markers/bulk` loop with its tallies.
- **Certificate import** (`CertificatesRoute`, `CertificateModel`): the spreadsheet row scanner, the import route, the batch insert tally, the listing window, update and batch delete.
- **Content models** (`EventModel`, `KindergartenModel`, `ContactMessageModel`, `Normalizers`): the query-parameter normalisers, status whitelists, row mapping and list-query rules.
- **`JsRuntime`**: the slice of JavaScript the code relies on.
  - Truthiness, `String(v)`, `Number(v)` and `Number.parseInt(v, 10)`.
  - `trim`, `\s`, ASCII `toLowerCase`/`toUpperCase`, and `split`.
  - Each is stated once and used everywhere.

The database is replaced by in-memory tables:
- A map from id to row, with the next auto-increment id.
- Unique indexes become invariants.
- Duplicate-key failures become an error value.
- Failures the database may raise for other reasons arrive as an oracle parameter, `faults`.

Clocks (`Date.now()`, the current year) are parameters. So are the JSON parser and the date parser.

Where the code works by changing state step by step, the model does the same:
- Classes whose methods update fields: `TranslationTable`, `CertificateStore`, `ContinentStore`, `MapTables`, `TtlCache`, `ContactRateLimiter`.
- Methods with loops: `FlattenPayload`, `NormalizeLocaleValues`, `NormalizeValues`, `ScanRows`/`ScanSheet`/`ParseExcelFile`, `BatchInsert`, `ImportMarkers`, `ImportLocale`, `ExportLocale`, `ResolveContinentCode`, `GroupCountries`.

Each of these is proved equal to a specification function, and the promised properties are proved as lemmas about that function. For the locale import and export this means:
- `ImportPlacesEntry`: an imported entry that no later entry overrides is stored under its key.
- `ImportThenExport`: the export then holds it at its path.
- `FreshImportThenExport`: a payload imported into an empty table is exported leaf for leaf.

Where the code's evident intent and its behaviour disagree, the model follows the behaviour:
- **Certificate numbers.** `parseExcelFile` rewrites `No.12` into `N.o.12`, and the public search adds `N.` to a number that already starts with `N.`.
- **Certificate listing page.** `findAll` lets a negative page through.

## Model

| member | source | states |
|---|---|---|
| TranslationKeys.SanitizeFullKey | backend/src/models/Translation.js:30-33 | a non-string key is ""; for a string, `SanitizeConcat` and `SanitizeChar` fix the result character by character |
| TranslationKeys.SanitizeConcat | backend/src/models/Translation.js:30-33 | the key of a concatenation is the concatenation of the keys |
| TranslationKeys.SanitizeChar | backend/src/models/Translation.js:30-33 | a single character survives exactly when it is not whitespace |
| TranslationKeys.SanitizeOfClean | backend/src/models/Translation.js:30-33 | a key without whitespace is its own sanitised form |
| TranslationKeys.SanitizeTrimsFirst | backend/src/models/Translation.js:30-33 | the sanitised key is the trimmed key with every whitespace run removed |
| TranslationKeys.SanitizeIdempotent | backend/src/models/Translation.js:30-33 | sanitising a sanitised key changes nothing |
| TranslationKeys.SanitizeClean | backend/src/models/Translation.js:30-33 | the sanitised key has no whitespace, and for a string input it is no longer than the input |
| TranslationKeys.DeriveNamespace | backend/src/models/Translation.js:23-28 | 'root' for an empty key or one whose trimmed form starts with '.'; otherwise the non-empty text before the first dot |
| TranslationKeys.ObjectEntries | backend/src/models/Translation.js:16 | the entries of an object are its fields in order; those of an array are its indices in decimal with their items |
| TranslationKeys.ValuesFromKeys | backend/src/models/Translation.js:16-19 | a locale is present exactly when some entry with that key is neither null nor undefined |
| TranslationKeys.ValuesFromLast | backend/src/models/Translation.js:16-19 | the stored value is the string form of the last non-null entry with that key |
| TranslationKeys.LocaleValues | backend/src/models/Translation.js:13-14 | a value that is not an object or array gives the empty map |
| TranslationKeys.LocaleValuesKeys | backend/src/models/Translation.js:13-21 | no key is ever added: every key of the result is a key of the input |
| TranslationKeys.LocaleValuesOfObject | backend/src/models/Translation.js:16-19 | each non-null entry is present as its string form, and each null or undefined entry is absent |
| TranslationKeys.NormalizeLocaleValues | backend/src/models/Translation.js:13-21 | the loop computes exactly `LocaleValues` |
| TranslationKeys.SafeParseJSON | backend/src/models/Translation.js:3-11 | a falsy value gives {}; an object passes through; otherwise the parse, or {} when the parse throws |
| TranslationKeys.FlattenPayload | backend/src/models/Translation.js:54-99 | the forEach loops compute exactly `Flatten` |
| TranslationKeys.FlattenArray | backend/src/models/Translation.js:58-72 | the array loop emits the entries of the items in index order |
| TranslationKeys.FlattenObject | backend/src/models/Translation.js:74-88 | the object loop emits the entries of the fields in entry order |
| TranslationKeys.Leaves | backend/src/models/Translation.js:54-99 | a scalar or null is one leaf; a container has the leaves of its members, depth first, so an empty one has none |
| TranslationKeys.FlattenIsLeaves | backend/src/models/Translation.js:54-99 | flatten emits exactly one entry per leaf, in order: key is the prefix joined with the path, text is String(v) or "" for null, label is the last segment; a root scalar with an empty prefix emits nothing |
| TranslationKeys.FlattenItemsIsLeaves | backend/src/models/Translation.js:58-72 | the array loop's entries are the items' leaves under their indices |
| TranslationKeys.FlattenFieldsIsLeaves | backend/src/models/Translation.js:74-88 | the object loop's entries are the fields' leaves under their keys |
| TranslationKeys.FlattenCount | backend/src/models/Translation.js:54-99 | a container payload gives exactly as many entries as it has leaves |
| TranslationKeys.FlattenEmptyContainers | backend/src/models/Translation.js:58-88 | empty arrays and objects vanish |
| TranslationKeys.DecimalHasNoDot | backend/src/models/Translation.js:60 | an index segment is non-empty and has no dot |
| TranslationKeys.LeavesWellKeyed | backend/src/models/Translation.js:54-99 | in a payload whose objects have clean, non-index, distinct keys, every leaf path is clean and every two leaf paths diverge |
| TranslationKeys.LeavesOfItemsWellKeyed | backend/src/models/Translation.js:58-72 | the leaves of the first n items diverge pairwise and are headed by indexes below n |
| TranslationKeys.LeavesOfFieldsWellKeyed | backend/src/models/Translation.js:74-88 | the leaves of the first n fields diverge pairwise and are headed by none of the later keys |
| TranslationKeys.UnderKeeps | backend/src/models/Translation.js:60-86 | moving leaves under one clean key keeps their paths clean and diverging |
| TranslationKeys.SetSlot | backend/src/models/Translation.js:43-46 | writing `base[index]` sets that slot, grows the array with holes, and leaves every other slot |
| TranslationKeys.SetField | backend/src/models/Translation.js:49-51 | writing `base[key]` sets that field, keeps every other field, and appends a new key last |
| TranslationKeys.AssignToTree | backend/src/models/Translation.js:35-52 | no segments: the value; a digit head gives an array, reusing the target only if it is one; any other head gives a plain object, reusing only an object |
| TranslationKeys.AssignThenGet | backend/src/models/Translation.js:35-52 | after an assignment the value is readable at that path |
| TranslationKeys.SiblingsUntouched | backend/src/models/Translation.js:35-52 | when the target already has the kind the head asks for, reading any other child of the result gives the target's child |
| TranslationKeys.AssignChild | backend/src/models/Translation.js:35-52 | assigning below a head segment rewrites exactly that child of the target |
| TranslationKeys.AssignKeepsGet | backend/src/models/Translation.js:35-52 | an assignment leaves every path that diverges from its own readable as before |
| Translation.TranslationTable.constructor | backend/src/models/Translation.js:181-203 | the table starts empty, with the first id 1 |
| Translation.PutKeepsValid | backend/src/models/Translation.js:181-300 | writing a row whose key no other row holds keeps ids below the counter and keys unique |
| Translation.RemoveKeepsValid | backend/src/models/Translation.js:253-256 | removing a row keeps the table valid |
| Translation.FindKey | backend/src/models/Translation.js:176 | the row holding a key, and none exactly when no row holds it |
| Translation.FindKeyUnique | backend/src/models/Translation.js:176 | with the unique index, the row holding a key is the one found |
| Translation.Lookup | backend/src/models/Translation.js:173-179 | an empty sanitised key finds nothing; a found row holds the sanitised key |
| Translation.OrNull | backend/src/models/Translation.js:194-195 | a falsy string column becomes null, any other is kept |
| Translation.OrNullInt | backend/src/models/Translation.js:199 | a falsy integer column becomes null, any other is kept |
| Translation.OrElse | backend/src/models/Translation.js:186 | a falsy namespace is replaced by the default |
| Translation.CreateSpec | backend/src/models/Translation.js:181-203 | an empty sanitised key throws and a key already held is a duplicate, each with no write; create succeeds exactly otherwise, adding one row under the next id with the sanitised key, the normalised values, the given or derived namespace, falsy label, description and editor columns as null, and sort order 0 when undefined; other rows are untouched |
| Translation.TranslationTable.Create | backend/src/models/Translation.js:181-203 | the insert is `CreateSpec` and keeps the table valid |
| Translation.Patched | backend/src/models/Translation.js:205-239 | only given columns change: each given label, description, sort order and editor column takes its new value (falsy strings and ids as null), each undefined one keeps the stored value; a truthy key is sanitised but not checked for emptiness, and the namespace is recomputed from it; undefined values keep the stored ones |
| Translation.UpdateSpec | backend/src/models/Translation.js:205-251 | no fields means no statement; a missing id changes nothing and reports success; otherwise it fails exactly when another row holds the patched key, writing nothing, and on success the row becomes `Patched` of the stored row; other rows are untouched |
| Translation.TranslationTable.Update | backend/src/models/Translation.js:205-251 | the update is `UpdateSpec` and keeps the table valid |
| Translation.TranslationTable.Delete | backend/src/models/Translation.js:253-256 | exactly that id is removed |
| Translation.TranslationTable.FindId | backend/src/models/Translation.js:176 | the scan finds `FindKey` |
| Translation.TranslationTable.FindByFullKey | backend/src/models/Translation.js:173-179 | the lookup is `Lookup` |
| Translation.Merged | backend/src/models/Translation.js:266-282 | an existing row keeps its id, key and namespace; only `[locale]` of its values changes; an undefined label, description or sort order keeps the stored one, a given sort order replaces it |
| Translation.Fresh | backend/src/models/Translation.js:285-300 | a new row gets the next id and the sanitised key |
| Translation.UpsertKeepsValid | backend/src/models/Translation.js:258-301 | the upsert keeps ids below the counter and keys unique |
| Translation.UpsertOnlyThisLocale | backend/src/models/Translation.js:258-301 | success exactly for a non-empty sanitised key; the returned row holds the key and the value for the locale; its other locales and every other row are unchanged; a new row has only that locale |
| Translation.UpsertKeepsUndefinedColumns | backend/src/models/Translation.js:274-276 | undefined label, description and sort order keep the stored ones |
| Translation.UpsertStores | backend/src/models/Translation.js:258-301 | a successful upsert stores its text under its key with the sort order it was given |
| Translation.UpsertOtherKey | backend/src/models/Translation.js:258-301 | an upsert of another key leaves the row holding a key as it was |
| Translation.UpsertStoresEntry | backend/src/models/Translation.js:306-315 | upserting a flattened entry stores its text under its key, its index as sort order |
| Translation.UpsertOtherEntry | backend/src/models/Translation.js:306-315 | upserting an entry with another key leaves the row holding a key as it was |
| Translation.TranslationTable.UpsertLocaleEntry | backend/src/models/Translation.js:258-301 | the method is `UpsertSpec` and keeps the table valid |
| Translation.ImportSpec | backend/src/models/Translation.js:303-319 | a successful import of n entries counts n |
| Translation.ImportNext | backend/src/models/Translation.js:306-317 | one iteration: stop at the first error, else count the upsert |
| Translation.ImportStopsAtError | backend/src/models/Translation.js:303-319 | after a failing upsert no later entry is written |
| Translation.ImportKeepsValid | backend/src/models/Translation.js:303-319 | the import keeps the table valid, whether or not it completes |
| Translation.ImportLoopStep | backend/src/models/Translation.js:306-317 | a failing upsert is the result of the whole import; a successful one extends it by one entry |
| Translation.ImportStepOk | backend/src/models/Translation.js:306-317 | entry n - 1 succeeds exactly when the import got that far and its key is not empty |
| Translation.ImportSucceeds | backend/src/models/Translation.js:303-319 | the import succeeds exactly when no flattened key sanitises to "" |
| Translation.ImportPlacesEntry | backend/src/models/Translation.js:306-315 | an entry no later entry overrides is stored under its key, with its text for the locale and its index as sort order |
| Translation.ImportPlacesLast | backend/src/models/Translation.js:306-315 | after a successful import the entry written last is stored under its key |
| Translation.ImportPlacesEarlier | backend/src/models/Translation.js:306-315 | an earlier entry stays stored when no later entry shares its key |
| Translation.ImportKeepsStored | backend/src/models/Translation.js:306-315 | a row stored before an entry of another key is written stays stored |
| Translation.ImportRowKeys | backend/src/models/Translation.js:303-319 | after an import every row was there before under the same key, or holds the key of an imported entry |
| Translation.TranslationTable.ImportLocale | backend/src/models/Translation.js:303-319 | flatten, then the upsert loop, is `ImportSpec` over all entries; its properties are the `Import*` lemmas |
| Translation.ExportSkips | backend/src/models/Translation.js:324-330 | rows without the locale, or whose key has no non-blank segment, do not change the tree |
| Translation.ExportPlacesRow | backend/src/models/Translation.js:321-333 | the export holds a row's text at the segments of its key when every row listed after it diverges from that path |
| Translation.SplitJoined | backend/src/models/Translation.js:326-328 | splitting a key joined from clean segments on dots gives the segments back |
| Translation.KeySegmentsOfJoined | backend/src/models/Translation.js:326-328 | a key joined from clean segments is its own sanitised form and exports at exactly those segments |
| Translation.TableExportPlaces | backend/src/models/Translation.js:321-333 | in any listing order the query allows, a row is exported at its key's segments unless a row listed after it writes at or above that path |
| Translation.ImportThenExport | backend/src/models/Translation.js:303-333 | after a successful import, a leaf with clean segments that no later leaf overrides is exported at its own path with its text, unless a row listed after it writes at or above that path |
| Translation.FreshImportThenExport | backend/src/models/Translation.js:303-333 | importing a well-keyed payload into an empty table succeeds, and the export then holds every leaf at its own path with its text, however rows of equal sort order are listed |
| Translation.Listing | backend/src/models/Translation.js:322 | the rows in the order the query returns them |
| Translation.TranslationTable.ExportLocale | backend/src/models/Translation.js:321-333 | the loop is the fold of `AssignToTree` over the listing; what the fold holds is `ExportPlacesRow` |
| TranslationsRoute.AvailableLocales | backend/src/routes/translations.js:9-14 | the trimmed non-blank comma-separated pieces of the setting, case kept; zh and en when none survives |
| TranslationsRoute.AvailableLocalesAppend | backend/src/routes/translations.js:9-14 | one more comma-separated piece adds its trimmed text at the end, or nothing when blank |
| TranslationsRoute.AvailableLocalesSingle | backend/src/routes/translations.js:9-14 | a single locale written with spaces around it is that locale alone |
| TranslationsRoute.UnsetLocales | backend/src/routes/translations.js:10-14 | an unset setting falls back to zh and en |
| TranslationsRoute.PutFieldLookup | backend/src/routes/translations.js:34 | assigning a key overwrites its last field in place or appends it; the key then reads the new value, every other key reads what it read before |
| TranslationsRoute.ValuesFromPutField | backend/src/routes/translations.js:32-35 | assigning a string to a key changes the locale map at that key alone |
| TranslationsRoute.NormalizedFrom | backend/src/routes/translations.js:32-35 | the filled object holds only strings and is no longer than the entries |
| TranslationsRoute.NormalizedValues | backend/src/routes/translations.js:29-37 | always an object; a non-object gives {} |
| TranslationsRoute.NormalizeValues | backend/src/routes/translations.js:29-37 | the forEach computes exactly `NormalizedValues` |
| TranslationsRoute.NormalizedFromValues | backend/src/routes/translations.js:29-37 | null entries dropped, others stringified, no key added: the same locale map the model derives |
| TranslationsRoute.NormalizeValuesTwice | backend/src/routes/translations.js:29-37 | normalising again in the model changes nothing |
| TranslationsRoute.PostPayload | backend/src/routes/translations.js:94-115 | 400 unless the key is a non-empty string, the sort order is at least 0 and values is an object; `create` gets the normalised values and no namespace |
| TranslationsRoute.PutPayload | backend/src/routes/translations.js:128-150 | 400 exactly for the failing validators; an absent `values` is passed on as undefined and a present one is normalised; label, description and sort order pass through as given, absent ones undefined, with the admin's name and id as editor |
| TranslationsRoute.PutKeepsColumnsWhenAbsent | backend/src/routes/translations.js:141-150 | a PUT without label, description or sort order keeps the stored ones |
| TranslationsRoute.PutKeepsValuesWhenAbsent | backend/src/routes/translations.js:141-150 | a PUT without values leaves the stored locale values unchanged |
| TranslationsRoute.ImportRoute | backend/src/routes/translations.js:178-195 | 400 with no write unless the locale is a non-empty listed string and data is a plain object; otherwise `importLocale` and its count |
| TranslationsRoute.ImportCountsLeaves | backend/src/routes/translations.js:191-195 | a successful import reports one per leaf of the payload: every scalar or null, however deep, and nothing for an empty array or object |
| PublicRoute.LowerEach | backend/src/routes/public.js:22 | each piece lower-cased, same length |
| PublicRoute.I18nLocales | backend/src/routes/public.js:19-24 | the trimmed non-blank comma-separated pieces of the setting, lower-cased; zh and en when none survives |
| PublicRoute.I18nLocalesLower | backend/src/routes/public.js:19-24 | every locale is non-empty and lower-case |
| PublicRoute.I18nLocalesAppend | backend/src/routes/public.js:19-24 | one more non-blank piece adds its trimmed, lower-cased text at the end |
| PublicRoute.FirstPrefix | backend/src/routes/public.js:29 | the first locale the input starts with, and none before it does |
| PublicRoute.NormalizeLocale | backend/src/routes/public.js:26-31 | always a listed locale; an exact lower-cased match wins, else the first prefix, else the first locale |
| PublicRoute.NormalizeLocaleIdempotent | backend/src/routes/public.js:26-31 | a normalised locale normalises to itself |
| PublicRoute.LangChoice | backend/src/routes/public.js:55-58 | a non-empty string query lang; failing that a non-empty string body lang; failing both the Accept-Language header, "" when absent |
| PublicRoute.GetLangFromReq | backend/src/routes/public.js:53-62 | 'en' exactly when the lower-cased choice starts with "en", else 'zh' |
| PublicRoute.Messages | backend/src/routes/public.js:34-51 | every message has non-empty Chinese and English text |
| PublicRoute.TMsg | backend/src/routes/public.js:64-69 | "" exactly for an unknown key; otherwise the text in the request's language |
| PublicRoute.ContactRateLimiter.constructor | backend/src/routes/public.js:72 | the store starts empty |
| PublicRoute.ContactRateLimiter.IsContactRateLimited | backend/src/routes/public.js:75-83 | refused exactly when less than 30 000 ms passed since the last accepted time (0 when none); only an accepted call records, and only under its address |
| PublicRoute.StoreCoversAccepted | backend/src/routes/public.js:75-83 | after an accepted submission the stored time for its address is at least its own |
| PublicRoute.AcceptedAreSpaced | backend/src/routes/public.js:75-83 | with a non-decreasing clock, two accepted submissions from one address are at least 30 000 ms apart |
| PublicRoute.CertificateSearchKey | backend/src/routes/public.js:249-255 | both inputs trimmed; a number not starting with "No." in any case gets "N." in front |
| PublicRoute.SearchPrefixesTwice | backend/src/routes/public.js:253-255 | any number that starts with "N." after trimming is looked up with a second "N." in front |
| PublicRoute.ContinentPhotosPlan | backend/src/routes/public.js:394-419 | 400 exactly when both trimmed inputs are empty; a continent, when given, is tried first; the country is the fallback |
| LocationCatalog.FirstAccepting | backend/src/services/locationCatalog.js:100-108 | the first definition that accepts the region and subregion |
| LocationCatalog.FirstOfRegion | backend/src/services/locationCatalog.js:111 | the first definition of the region |
| LocationCatalog.ResolveTrimmed | backend/src/services/locationCatalog.js:98-112 | a resolved code belongs to a definition of that region |
| LocationCatalog.ResolveSpec | backend/src/services/locationCatalog.js:96-113 | a missing or empty region gives null; otherwise the trimmed region and subregion are resolved |
| LocationCatalog.ResolveContinentCode | backend/src/services/locationCatalog.js:96-113 | the scan with early return and the fallback compute `ResolveSpec` |
| LocationCatalog.ResolveUnknownRegion | backend/src/services/locationCatalog.js:96-113 | a region outside the table gives null |
| LocationCatalog.ResolveAmericas | backend/src/services/locationCatalog.js:96-113 | Americas with "South America" gives south_america; any other subregion, missing included, gives north_america |
| LocationCatalog.ResolveSingleRegion | backend/src/services/locationCatalog.js:102-104 | a region with one continent resolves to it whatever the subregion |
| LocationCatalog.ListContinents | backend/src/services/locationCatalog.js:115-121 | exactly the seven definitions, in order, each projected to its code and names |
| LocationCatalog.ListedCodes | backend/src/services/locationCatalog.js:115-121 | the listed codes are distinct, non-empty, lower-case and trimmed |
| LocationCatalog.FindByCode | backend/src/services/locationCatalog.js:161 | the first definition with exactly this code |
| LocationCatalog.GetContinentMeta | backend/src/services/locationCatalog.js:123-133 | a falsy code gives null; otherwise the listed continent whose code is the lower-cased code, and null only when none is |
| LocationCatalog.ListedContinentsResolve | backend/src/services/locationCatalog.js:123-133 | every listed continent is found by its code, in any letter case |
| LocationCatalog.NewEntry | backend/src/services/locationCatalog.js:70-75 | an undefined ttl is the 24-hour default; a zero ttl gives no expiry |
| LocationCatalog.TtlCache.constructor | backend/src/services/locationCatalog.js:50-54 | a cache starts empty |
| LocationCatalog.TtlCache.GetCache | backend/src/services/locationCatalog.js:60-68 | the data of a live entry; a dead entry is deleted and gives null; other keys untouched |
| LocationCatalog.TtlCache.SetCache | backend/src/services/locationCatalog.js:70-75 | exactly that key is set to the new entry |
| LocationCatalog.SetThenLive | backend/src/services/locationCatalog.js:60-75 | an entry with a positive ttl is served until it expires, and not at its expiry |
| LocationCatalog.ZeroTtlNeverLive | backend/src/services/locationCatalog.js:63-73 | an entry set with ttl 0 is never served |
| LocationCatalog.CountriesOf | backend/src/services/locationCatalog.js:174-196 | the summaries of exactly the payload countries that belong to the continent, each carrying this continent's code, no more than the payload has |
| LocationCatalog.CountriesOfAppend | backend/src/services/locationCatalog.js:174-196 | one more payload country appends its summary exactly when it belongs, so the list keeps payload order |
| LocationCatalog.GetCountriesByContinent | backend/src/services/locationCatalog.js:160-200 | an unknown code fails before the cache or the fetch; a live cache entry is served; a non-array payload fails; otherwise the filtered, collated list is returned and cached |
| MapContinentModel.PhotoItemOf | backend/src/models/MapContinent.js:6-19 | a string item is kept trimmed, even empty, with its index as sort order; an object is kept only with a non-empty url; anything else is dropped |
| MapContinentModel.PhotoOfObjectItem | backend/src/models/MapContinent.js:10-16 | an object item's url is trimmed; its sort order is its own number, else its numeric value, else its index when that is 0 or NaN |
| MapContinentModel.PhotoItemThrows | backend/src/models/MapContinent.js:11 | `trim` throws exactly on an object whose url is truthy but not a string |
| MapContinentModel.NextPhotos | backend/src/models/MapContinent.js:5-20 | one more item adds at most one photo |
| MapContinentModel.PhotosOf | backend/src/models/MapContinent.js:5-20 | no more photos than items; a failure exactly when some item throws |
| MapContinentModel.NormalizePhotos | backend/src/models/MapContinent.js:3-21 | a non-array gives []; otherwise the kept items in order, never more than the input |
| MapContinentModel.PhotosOfStringItem | backend/src/models/MapContinent.js:7-9 | a string item always appends exactly its trimmed photo |
| MapContinentModel.PhotosOfBlankObject | backend/src/models/MapContinent.js:10-12 | an object with a blank url adds nothing |
| MapContinentModel.PhotosTrimmed | backend/src/models/MapContinent.js:3-21 | every kept url is trimmed |
| MapContinentModel.FindAll | backend/src/models/MapContinent.js:115-130 | page is the number when positive, else 1; limit the number when positive, else 10, at most 100; offset never negative; filters only when truthy |
| MapContinentModel.CodeOf | backend/src/models/MapContinent.js:47 | a falsy code is null, a string is trimmed, a truthy non-string throws |
| MapContinentModel.CreateSpec | backend/src/models/MapContinent.js:37-70 | a failure rolls back; success adds the row under the next id with its normalised photos |
| MapContinentModel.UpdateSpec | backend/src/models/MapContinent.js:72-108 | succeeds exactly when the code trims, is not held by another continent, and the given photos normalise and, for a missing id, are none; a duplicate code, and photos for a missing id (the foreign key), each fail as such; a failure or a missing id writes nothing; on success the row is rewritten and the photos are replaced only when given; other continents are untouched |
| MapContinentModel.CreateKeepsValid | backend/src/models/MapContinent.js:37-70 | a new continent gets a fresh id and the tables stay valid |
| MapContinentModel.UpdateKeepsValid | backend/src/models/MapContinent.js:72-108 | an update keeps the tables valid and codes unique |
| MapContinentModel.ContinentStore.constructor | backend/src/models/MapContinent.js:36 | both tables start empty |
| MapContinentModel.ContinentStore.InsertPhotos | backend/src/models/MapContinent.js:55-61 | the photos are appended to that continent's, nothing else changes |
| MapContinentModel.ContinentStore.AddContinent | backend/src/models/MapContinent.js:42-61 | the row goes under the next id with its photos |
| MapContinentModel.ContinentStore.ReplaceContinent | backend/src/models/MapContinent.js:77-99 | the row of that id is rewritten and its photos replaced |
| MapContinentModel.ContinentStore.Create | backend/src/models/MapContinent.js:37-70 | the transaction is `CreateSpec` |
| MapContinentModel.ContinentStore.Update | backend/src/models/MapContinent.js:72-108 | the transaction is `UpdateSpec` |
| MapContinentModel.FirstByCode | backend/src/models/MapContinent.js:244-250 | a matching row: some row whose lower-cased code matches, and none only when no row does |
| MapContinentModel.FirstByName | backend/src/models/MapContinent.js:269-275 | a matching row: some row whose lower-cased name matches, and none only when no row does |
| MapContinentModel.FindByCode | backend/src/models/MapContinent.js:241-257 | a falsy code finds nothing; a found row's code matches the lower-cased code |
| MapContinentModel.FindByNameOrCode | backend/src/models/MapContinent.js:259-280 | a missing or blank identifier finds nothing; a code match takes precedence over a name match |
| MapContinentModel.CitiesIn | backend/src/models/MapContinent.js:326-345 | every city of a group carries that group's country |
| MapContinentModel.CountryOrder | backend/src/models/MapContinent.js:326-333 | the country names in first-appearance order, each once, every marker's country among them |
| MapContinentModel.IndexOfCountry | backend/src/models/MapContinent.js:328 | the position of a country's group, if any |
| MapContinentModel.GroupByCountryShape | backend/src/models/MapContinent.js:324-346 | the groups are the countries in first-appearance order, each holding exactly its cities in marker order |
| MapContinentModel.MarkerPlacedOnce | backend/src/models/MapContinent.js:326-346 | every marker is in its own country's group, and in no other |
| MapContinentModel.InsertCity | backend/src/models/MapContinent.js:356-358 | inserting keeps the cities sorted and adds exactly that city |
| MapContinentModel.SortCities | backend/src/models/MapContinent.js:356-358 | ordered by sort order then id, and a permutation |
| MapContinentModel.SortGroups | backend/src/models/MapContinent.js:354-359 | each group keeps its country and has its cities sorted |
| MapContinentModel.MarkersOf | backend/src/models/MapContinent.js:316-323 | exactly the markers of that continent |
| MapContinentModel.PhotosForMembers | backend/src/models/MapContinent.js:306-314 | every photo row of the continent is served as id, url and sort order, and every served photo comes from such a row |
| MapContinentModel.PhotosForAppend | backend/src/models/MapContinent.js:306-314 | the photos of two runs of rows are those of each run, in order |
| MapContinentModel.PhotosForOne | backend/src/models/MapContinent.js:306-314 | a row gives one public photo when it belongs to the continent, none otherwise |
| MapContinentModel.PublicView | backend/src/models/MapContinent.js:322-361 | one entry per enabled continent, in query order |
| MapContinentModel.PublicPlacesMarker | backend/src/models/MapContinent.js:316-360 | every marker of a served continent sits in its own country's group and in no other; cities are sorted |
| MapContinentModel.GroupCountries | backend/src/models/MapContinent.js:324-346 | the forEach builds exactly `GroupByCountry` |
| MapContinentModel.FetchForPublic | backend/src/models/MapContinent.js:282-365 | the result is `PublicView` of the three queries |
| MapMarkerModel.PositiveOr | backend/src/models/MapMarker.js:104-105 | a positive parse, else the default |
| MapMarkerModel.FindAll | backend/src/models/MapMarker.js:101-107 | page and limit positive parses, else 1 and 10; limit clamped to [1, 100]; offset never negative; filters only when truthy |
| MapMarkerModel.FirstMatch | backend/src/models/MapMarker.js:217-235 | the first matching row (LIMIT 1), and null only when none matches |
| MapMarkerModel.FirstMatchIsFirst | backend/src/models/MapMarker.js:230-231 | a match with none before it is the answer |
| MapMarkerModel.FindContinentByCountry | backend/src/models/MapMarker.js:210-236 | a missing or blank country gives null; otherwise the answer is the first row, in query order, matching the trimmed, lower-cased country, and null exactly when no row matches |
| MapMarkerModel.NormalizeVariant | backend/src/models/MapMarker.js:243 | a string trimmed and lower-cased; anything else "" |
| MapMarkerModel.Dedupe | backend/src/models/MapMarker.js:240-246 | the non-empty values, each once, every one present |
| MapMarkerModel.NormalizedItems | backend/src/models/MapMarker.js:242-243 | the normal form of every item, in order |
| MapMarkerModel.Variants | backend/src/models/MapMarker.js:240-246 | lower-case, non-empty, distinct, and exactly the non-empty normal forms |
| MapMarkerModel.VariantQuery | backend/src/models/MapMarker.js:238-247 | no query for a non-array or empty list, or when nothing survives |
| MapMarkerModel.FindContinentByCountryVariants | backend/src/models/MapMarker.js:238-266 | null without a query; otherwise the answer is the first row, in query order, matching one of the variants, and null exactly when no row matches |
| MapMarkerModel.CountryIsOneVariant | backend/src/models/MapMarker.js:210-266 | looking a country up alone is looking up the one-item variant list |
| MapRoute.ContinentKey | backend/src/routes/map.js:285 | the continent code is lower-cased |
| MapRoute.Resolve | backend/src/routes/map.js:285-333 | markers untouched; continents only grow |
| MapRoute.AutoCreate | backend/src/routes/map.js:297-324 | a create fault writes nothing; otherwise exactly the catalog row is added |
| MapRoute.CatalogCodeClean | backend/src/services/locationCatalog.js:1-46 | every catalog code is non-empty, lower-case and trimmed |
| MapRoute.ResolveFound | backend/src/routes/map.js:285-295 | a stored continent is used; a code absent from table and catalog fails with continent_not_found |
| MapRoute.ResolveCreates | backend/src/routes/map.js:297-333 | a catalog continent is created and used; a duplicate fails to resolve; another fault fails with continent_create_failed |
| MapRoute.FindMarker | backend/src/routes/map.js:350 | an existing marker at that place exactly when one is there |
| MapRoute.Place | backend/src/routes/map.js:335-373 | only a created result writes; a non-failed result had a country and a city; the result echoes the input |
| MapRoute.ImportOne | backend/src/routes/map.js:277-380 | tables only grow, and the result echoes the input |
| MapRoute.PlaceCases | backend/src/routes/map.js:335-373 | an empty country or city fails with invalid_location; an existing marker at the place skips with reason "exists" and that marker's id, writing nothing; a fault fails with its message (unknown_error when empty), writing nothing; a created marker is appended under the next id at the place, with status `status || 'enabled'`, the input's sort order or 0, no reason and its id |
| MapRoute.Run | backend/src/routes/map.js:277-381 | one result per input processed |
| MapRoute.RunAt | backend/src/routes/map.js:277-381 | the result of input i is its own step from the tables the inputs before it left |
| MapRoute.StatusOfStep | backend/src/routes/map.js:277-381 | the result of input k is its own step, from the tables the inputs before it left |
| MapRoute.FirstRecorded | backend/src/routes/map.js:350-373 | an input that is not failed had a country and a city, and leaves its continent and place recorded |
| MapRoute.ResultStable | backend/src/routes/map.js:277-381 | later inputs leave an earlier result alone |
| MapRoute.Count | backend/src/routes/map.js:273-275 | a tally is at most the number of results |
| MapRoute.CountsAddUp | backend/src/routes/map.js:383-393 | created + skipped + failed = total |
| MapRoute.ResultsEchoInputs | backend/src/routes/map.js:277-381 | the results answer the inputs one for one, in input order |
| MapRoute.ImportOneKeeps | backend/src/routes/map.js:277-381 | known continents and taken places stay so |
| MapRoute.ImportOneRecords | backend/src/routes/map.js:350-373 | a created or skipped input leaves its continent resolvable and its place taken |
| MapRoute.PlaceNeedsLocation | backend/src/routes/map.js:342-348 | an input not failed had a country and a city |
| MapRoute.ImportOneSkipsTaken | backend/src/routes/map.js:350-358 | a taken place is skipped whatever the faults, and nothing is written |
| MapRoute.RecordedAfter | backend/src/routes/map.js:350-373 | after a non-failed input its place is taken |
| MapRoute.KnownLater | backend/src/routes/map.js:277-381 | a continent found and a place taken stay so for the rest of the batch |
| MapRoute.SamePlaceSkippedLater | backend/src/routes/map.js:350-373 | a later input with the same continent code and place is skipped |
| MapRoute.MapTables.constructor | backend/scripts/migrations/20251110_create_map_markers_tables.js:2-34 | the continent and marker tables as they stand before the request, with their next AUTO_INCREMENT ids |
| MapRoute.MapTables.ResolveContinent | backend/src/routes/map.js:285-333 | the method is `Resolve` |
| MapRoute.MapTables.PlaceMarker | backend/src/routes/map.js:335-373 | the method is `Place` |
| MapRoute.MapTables.ImportItem | backend/src/routes/map.js:277-380 | the method is `ImportOne` |
| MapRoute.MapTables.ImportMarkers | backend/src/routes/map.js:269-395 | the loop is `Run` over all inputs, and the summary holds the total and the three tallies of the results |
| CertificatesRoute.FindYear | backend/src/routes/certificates.js:54 | the leftmost position of four digits and 年, and none only when there is none |
| CertificatesRoute.SheetYear | backend/src/routes/certificates.js:53-57 | the year text is never empty, and without a year in the sheet name it is the current year |
| CertificatesRoute.DigitsRoundTrip | backend/src/routes/certificates.js:56 | digits without a leading zero print back as themselves |
| CertificatesRoute.SheetYearOfName | backend/src/routes/certificates.js:53-57 | a sheet named for a year gets that year |
| CertificatesRoute.MonthAtIsPattern | backend/src/routes/certificates.js:73 | the month predicate is the pattern: digits then 月 |
| CertificatesRoute.FindMonth | backend/src/routes/certificates.js:73 | a match position lies in the text |
| CertificatesRoute.FindMonthLeftmost | backend/src/routes/certificates.js:73 | the leftmost match, and none only when there is none |
| CertificatesRoute.PadMonthShape | backend/src/routes/certificates.js:75 | left-padded with zeros to two characters, the digits kept at the end; padded digits are a month |
| CertificatesRoute.MonthOfShape | backend/src/routes/certificates.js:72-78 | a month exactly for a filled cell that matches, and it is two digits or more |
| CertificatesRoute.MonthOfLeadingDigits | backend/src/routes/certificates.js:73-75 | a cell starting with digits and 月 names those digits, padded |
| CertificatesRoute.NoPrefixReplaced | backend/src/routes/certificates.js:86 | a leading No, any case, optional dot and whitespace become "No." |
| CertificatesRoute.NPrefixReplaced | backend/src/routes/certificates.js:86 | a leading N, any case, optional dot and whitespace become "N." |
| CertificatesRoute.FormatNumber | backend/src/routes/certificates.js:86 | a number starting with N or n comes out starting "N."; any other is unchanged; non-empty stays non-empty |
| CertificatesRoute.FormattedIsFixed | backend/src/routes/certificates.js:86 | a number already "N." with nothing to trim is unchanged |
| CertificatesRoute.FormatNumberIdempotent | backend/src/routes/certificates.js:86 | formatting twice is formatting once |
| CertificatesRoute.FormatNumberNoDot | backend/src/routes/certificates.js:86 | "No." followed by t becomes "N.o." followed by t |
| CertificatesRoute.FormatNumberNSpace | backend/src/routes/certificates.js:86 | N followed by whitespace becomes "N." without it |
| CertificatesRoute.RowRecordCases | backend/src/routes/certificates.js:81-97 | a record exactly when C and D are filled, a month is known and neither trimmed name nor number is blank; dated year/month |
| CertificatesRoute.MonthShape | backend/src/routes/certificates.js:59-78 | the month in force is none or two digits or more |
| CertificatesRoute.RowRecordShape | backend/src/routes/certificates.js:81-97 | every record is well formed: trimmed non-empty name, non-empty number, year/month date |
| CertificatesRoute.RecordsShape | backend/src/routes/certificates.js:62-98 | every record of a sheet is well formed, and no row adds more than one |
| CertificatesRoute.NoMonthNoRecords | backend/src/routes/certificates.js:59-81 | until a row names a month, no row yields a record |
| CertificatesRoute.MonthCarriesDown | backend/src/routes/certificates.js:71-78 | a row gets the month of the nearest row at or above it that names one |
| CertificatesRoute.ConcatAppend | backend/src/routes/certificates.js:45-100 | for any per-sheet reader, `WorkbookRecords`' included, the records of s1 + s2 are those of s1 followed by those of s2: sheets are read independently and no month crosses sheets |
| CertificatesRoute.ScanRows | backend/src/routes/certificates.js:62-99 | the row loop from the third row to the last is the scan |
| CertificatesRoute.ScanMatches | backend/src/routes/certificates.js:59-98 | reading row by row gives the month in force and the records in row order |
| CertificatesRoute.ScanSheet | backend/src/routes/certificates.js:59-99 | the records of one sheet |
| CertificatesRoute.ParseExcelFile | backend/src/routes/certificates.js:40-104 | the records of every sheet in order, each sheet's rows in order |
| CertificatesRoute.Import | backend/src/routes/certificates.js:118-148 | no file or no records: 400 and nothing written; otherwise the batch insert and its tally with the total |
| CertificateModel.InsertOne | backend/src/models/Certificate.js:34-48 | a fault is an error; a taken number is a duplicate; otherwise the row is added enabled; no failure writes |
| CertificateModel.BatchInsertSpec | backend/src/models/Certificate.js:23-26 | an empty list gives 0, 0, [] and no write |
| CertificateModel.TallyCounts | backend/src/models/Certificate.js:28-52 | inserted + skipped + errors = the certificates attempted |
| CertificateModel.FaultList | backend/src/models/Certificate.js:43-47 | the non-duplicate failures, no more than attempted |
| CertificateModel.TallyErrors | backend/src/models/Certificate.js:39-48 | the error list is exactly the faults, in input order |
| CertificateModel.InsertKeepsValid | backend/src/models/Certificate.js:34-37 | an insert keeps the unique index |
| CertificateModel.TallyKeeps | backend/src/models/Certificate.js:32-50 | the batch keeps the unique index, and existing rows stay |
| CertificateModel.TakenStaysTaken | backend/src/models/Certificate.js:32-50 | a number in the table stays for the rest of the batch |
| CertificateModel.EveryUnfaultedStored | backend/src/models/Certificate.js:32-50 | every certificate whose insert did not fault is stored, whatever failed before |
| CertificateModel.RepeatSkipped | backend/src/models/Certificate.js:39-41 | a number repeated later in the batch is skipped |
| CertificateModel.FindAllAsWritten | backend/src/models/Certificate.js:56-72 | page is `Number(page) \|\| 1`, never 0 but possibly negative; limit is `Number(limit) \|\| 10` clamped to [1, 100]; offset (page - 1) * limit; a keyword filter exactly when truthy |
| CertificateModel.NegativePageOffset | backend/src/models/Certificate.js:57-59 | page -1 gives OFFSET -20 |
| CertificateModel.FindAll | backend/src/models/Certificate.js:56-72 | the same query with the page clamped to at least 1: page max(1, `Number(page) \|\| 1`), the same limit, a valid window, the same keyword filter |
| CertificateModel.FindAllAgrees | backend/src/models/Certificate.js:57-59 | the clamp changes the query exactly for pages below 1 |
| CertificateModel.UpdateSpec | backend/src/models/Certificate.js:106-123 | number, name and date change; status only when given; a missing id changes nothing; a duplicate writes nothing |
| CertificateModel.UpdateKeepsValid | backend/src/models/Certificate.js:106-123 | an update keeps the unique index |
| CertificateModel.DeleteSpec | backend/src/models/Certificate.js:132-140 | an empty list deletes nothing; exactly the listed rows go; the count is the rows removed |
| CertificateModel.DeleteBound | backend/src/models/Certificate.js:132-140 | at most one row per id listed |
| CertificateModel.DeleteKeepsValid | backend/src/models/Certificate.js:132-140 | a delete keeps the table valid |
| CertificateModel.CertificateStore.constructor | backend/src/models/Certificate.js:5-20 | the table starts empty |
| CertificateModel.CertificateStore.Insert | backend/src/models/Certificate.js:34-37 | the statement is `InsertOne` |
| CertificateModel.CertificateStore.BatchInsert | backend/src/models/Certificate.js:23-53 | the loop is `BatchInsertSpec` and keeps the table valid |
| CertificateModel.CertificateStore.Update | backend/src/models/Certificate.js:106-123 | the statement is `UpdateSpec` |
| CertificateModel.CertificateStore.BatchDelete | backend/src/models/Certificate.js:132-140 | the statement is `DeleteSpec` |
| CertificateModel.CertificateStore.Delete | backend/src/models/Certificate.js:126-129 | a one-id delete, removing at most one row |
| Normalizers.NormalizePage | backend/src/models/Event.js:7-10 | a parsed page of at least 1, else the fallback |
| Normalizers.NormalizeLimit | backend/src/models/Event.js:12-16 | the fallback, unclamped, when the value does not parse; otherwise the parse clamped to [1, 100] |
| Normalizers.NormalizeSortOrder | backend/src/models/Event.js:18-21 | the parsed integer, or 0 |
| Normalizers.SanitizeString | backend/src/models/Event.js:27-30 | a non-string is ""; a string is trimmed |
| Normalizers.SanitizeStringIdempotent | backend/src/models/Event.js:27-30 | sanitising twice is sanitising once |
| Normalizers.PageWindow | backend/src/models/Event.js:75-77 | a valid window: page at least 1, limit in [1, 100], the offset skipping the earlier pages and never negative |
| Normalizers.ContentWindow | backend/src/models/Event.js:75-77 | the window is valid; the page is the parsed page when at least 1, else 1; the limit is 10 when it does not parse, else the parse clamped to [1, 100] |
| Normalizers.KeywordFilter | backend/src/models/Event.js:88-94 | a filter exactly for a non-blank keyword, trimmed |
| Normalizers.Coalesce | backend/src/models/Kindergarten.js:37 | the left side unless it is null or undefined |
| EventModel.NormalizeStatus | backend/src/models/Event.js:23-25 | 'published' exactly for 'published', else 'draft' |
| EventModel.FindAll | backend/src/models/Event.js:74-100 | the window is `ContentWindow` of page and limit; keyword filter exactly when non-blank; status filter only for 'draft' or 'published' |
| EventModel.FindPublishedLimit | backend/src/models/Event.js:121-122 | 100 when the limit does not parse, else the parse clamped to [1, 100] |
| EventModel.PrepareWrite | backend/src/models/Event.js:50-62 | 'Invalid eventDate' before any write exactly when the date is missing or does not parse; otherwise the record of trimmed strings, the whitelisted status, the parsed sort order or 0, and the content fields with `?? ''` |
| KindergartenModel.NormalizeStatus | backend/src/models/Kindergarten.js:23-25 | 'disabled' exactly for 'disabled', else 'enabled' |
| KindergartenModel.MapRow | backend/src/models/Kindergarten.js:32-46 | null exactly for no row; id, name, address, logo and status copied; each English field, the dates and the sort order taken from the snake-case column unless it is null or undefined, the sort order through `normalizeSortOrder` |
| KindergartenModel.MapRowPrefersColumns | backend/src/models/Kindergarten.js:37-44 | when the snake-case columns are set they are used and the camel-case fields ignored |
| KindergartenModel.MapRowOfMapped | backend/src/models/Kindergarten.js:32-46 | mapping an already mapped kindergarten gives it back unchanged |
| KindergartenModel.FindAll | backend/src/models/Kindergarten.js:65-91 | the window is `ContentWindow` of page and limit; keyword filter exactly when non-blank; status filter only for 'enabled' or 'disabled' |
| KindergartenModel.FindPublished | backend/src/models/Kindergarten.js:112-122 | the first `limit` enabled rows in table order (all of them when fewer), with the limit falling back to and clamped at 100 |
| KindergartenModel.Enabled | backend/src/models/Kindergarten.js:117 | exactly the enabled rows |
| KindergartenModel.EnabledAppend | backend/src/models/Kindergarten.js:117 | one more row appends itself exactly when enabled, so the enabled rows keep table order |
| ContactMessageModel.NormalizeInt | backend/src/models/ContactMessage.js:7-10 | the parsed integer, or null exactly when it is NaN |
| ContactMessageModel.MessageType | backend/src/models/ContactMessage.js:34 | 'business' exactly for 'business', else 'parenting' |
| ContactMessageModel.SafeStatus | backend/src/models/ContactMessage.js:44 | 'processed' or 'spam' when given, else 'new' |
| ContactMessageModel.UserAgent | backend/src/models/ContactMessage.js:43 | a prefix of the normalised agent, at most 255 characters, the whole of it when short enough |
| ContactMessageModel.UserAgentOfStored | backend/src/models/ContactMessage.js:43 | a stored agent, trimmed and at most 255 characters, is normalised to its trimmed form |
| ContactMessageModel.VerbatimText | backend/src/models/ContactMessage.js:40-41 | a string is kept untrimmed, anything else is null |
| ContactMessageModel.Create | backend/src/models/ContactMessage.js:33-56 | each column from its own rule: type and status whitelisted, child age parsed, the short texts normalised, intention and problem verbatim, the agent normalised and cut to 255 |
| ContactMessageModel.CreateResubmitted | backend/src/models/ContactMessage.js:33-56 | submitting a stored message again stores the same message, its agent trimmed |
| ContactMessageModel.UpdateStatus | backend/src/models/ContactMessage.js:125-126 | the same status rule as create |
| ContactMessageModel.ParseIntOr | backend/src/models/ContactMessage.js:59-60 | the parse when it is a non-zero integer, else the default |
| ContactMessageModel.FindAll | backend/src/models/ContactMessage.js:58-91 | page `max(1, parseInt(page) || 1)` and limit `min(100, max(1, parseInt(limit) || 10))` in a valid window; filters only for whitelisted type, whitelisted status and a non-blank keyword |
| ContactMessageModel.FindAllWindowAgrees | backend/src/models/ContactMessage.js:59-60 | the window equals the content models' `ContentWindow` exactly unless the limit parses to 0, which gives 10 here and 1 there; the page always agrees |
| JsRuntime.TrimStart | backend/src/routes/certificates.js:86 | drops exactly the leading whitespace |
| JsRuntime.TrimEnd | backend/src/models/Event.js:29 | drops exactly the trailing whitespace |
| JsRuntime.Trim | backend/src/models/Event.js:29 | the infix left after dropping whitespace at both ends |
| JsRuntime.TrimStartSuffix | backend/src/routes/certificates.js:86 | `trimStart` keeps a suffix and drops only whitespace |
| JsRuntime.TrimEndPrefix | backend/src/models/Event.js:29 | `trimEnd` keeps a prefix and drops only whitespace |
| JsRuntime.TrimDropsBlank | backend/src/models/Event.js:29 | what `trim` drops at either end is whitespace |
| JsRuntime.TrimOfTrimmed | backend/src/models/Event.js:29 | trimming text with no whitespace at its ends changes nothing |
| JsRuntime.TrimIdempotent | backend/src/models/Event.js:29 | trimming twice is trimming once |
| JsRuntime.RemoveWhitespaceClean | backend/src/models/Translation.js:32 | no whitespace left, never longer |
| JsRuntime.RemoveWhitespaceAppend | backend/src/models/Translation.js:32 | removing whitespace works piece by piece over a concatenation |
| JsRuntime.RemoveWhitespaceOfClean | backend/src/models/Translation.js:32 | text without whitespace is unchanged |
| JsRuntime.RemoveWhitespaceOfTrim | backend/src/models/Translation.js:32 | trimming first makes no difference once whitespace is removed |
| JsRuntime.ToLower | backend/src/routes/public.js:27 | same length, no upper-case ASCII letter |
| JsRuntime.ToUpper | backend/src/routes/map.js:337 | same length, no lower-case ASCII letter |
| JsRuntime.ToLowerIdempotent | backend/src/routes/public.js:27 | lower-casing twice is lower-casing once |
| JsRuntime.Split | backend/src/routes/translations.js:10-11 | at least one piece, none containing the separator |
| JsRuntime.TrimmedNonEmptyAppend | backend/src/routes/translations.js:12-13 | pieces are handled one by one: the result for a concatenation is the concatenation of the results |
| JsRuntime.TrimmedNonEmptyOne | backend/src/routes/translations.js:12-13 | one piece gives its trimmed form, or nothing when blank |
| JsRuntime.TrimmedNonEmptyClean | backend/src/routes/translations.js:12-13 | what is left is trimmed and non-empty |
| JsRuntime.TrimmedNonEmptyOfClean | backend/src/routes/translations.js:12-13 | pieces already trimmed and non-empty come back unchanged |
| JsRuntime.SplitNoSeparator | backend/src/models/Translation.js:26 | text without the separator is one piece |
| JsRuntime.SplitAppendPiece | backend/src/models/Translation.js:328 | appending a separator and a piece appends the piece |
| JsRuntime.SplitFirst | backend/src/models/Translation.js:26 | the first piece is the text before the first separator |
| JsRuntime.NatToDecimal | backend/src/models/Translation.js:60 | decimal digits only, at least one |
| JsRuntime.DecimalRoundTrip | backend/src/models/Translation.js:43 | printing an index and reading it back gives the index |
| JsRuntime.DigitPrefix | backend/src/models/Event.js:8 | the longest run of leading digits |
| JsRuntime.ParseIntStr | backend/src/models/Event.js:8 | NaN exactly when no digit follows the whitespace and sign |
| JsRuntime.ParseIntOfNumber | backend/src/models/Event.js:8 | parsing a number prints it and reads it back: the number itself |
| JsRuntime.ParseIntOfNull | backend/src/models/Event.js:8 | null parses to NaN |
| JsRuntime.StrToNumber | backend/src/models/Certificate.js:57 | blank text is 0; the rest is `NumeralValue` of the trimmed text |
| JsRuntime.StrToNumberOfDecimal | backend/src/models/Certificate.js:57 | the decimal text of an integer reads back as that integer |
| JsRuntime.StrToNumberPrefixed | backend/src/models/Certificate.js:57 | 0x, 0o and 0b numerals (either case) read in base 16, 8 and 2; a signed one is NaN |
| JsRuntime.RadixTenIsDecimal | backend/src/models/Certificate.js:57 | read in base ten, digits have their decimal value |
| JsRuntime.NumberOr | backend/src/models/Certificate.js:57 | the default or a non-zero number |
| JsRuntime.Prop | backend/src/models/MapContinent.js:11 | a missing property is undefined |
| JsRuntime.OrValue | backend/src/models/MapContinent.js:11 | the left side when truthy, else the right |

## Left out

- SQL and the connection pool: statements, LIKE matching, transactions and connection handling are replaced by in-memory tables. A transaction is modelled only as "all or nothing".
- Database sort orders: ORDER BY of the listings and the row a `LIMIT 1` lookup returns. Scans take the rows in a given order, and the export takes the listing as a parameter. Ties under `ORDER BY sort_order, full_key` are left to MySQL collation.
- MySQL collation and case-insensitive comparison: key and code comparisons are exact, after the explicit lower-casing the code does.
- Network calls of the location catalog (`fetchJSON`, the REST Countries and city services) are not modelled. The country payload is a parameter, and its zh-CN `localeCompare` sort is the function parameter `collate`.
- LocationCatalog.GetCountriesByContinent: does not model the per-country `countryInfoCache` writes made while mapping the payload, because that cache is not read on this path.
- The xlsx library, multer uploads and temporary files are not modelled. A workbook is a sequence of sheets, each a name and rows of cells from row 0 to the last row of its range. Date-typed cells and a sheet without a range are not modelled.
- Clocks: `Date.now()`, `new Date()` and `getFullYear()` are parameters (`now`, `currentYear`).
- The date parser is the predicate parameter `parsesAsDate`, and `JSON.parse` is the function parameter `jsonParse`.
- Floating point:
  - Numbers are integers, and `Number(v)` of a decimal fraction or an exponent is treated as NaN.
  - Latitude, longitude and `coords` of markers are not modelled.
  - `Number.isFinite` is "is a number".
- JavaScript object and array representation:
  - Integer-like object keys are not moved to the front.
  - Objects are association lists in the given order, and arrays in exported trees are sequences with holes.
  - Letter case mapping covers ASCII only.
- Concurrency: the unlocked read-merge-write of `upsertLocaleEntry`, and concurrent use of the rate-limit map. Requests are taken one at a time.
- express-validator chains are typed inputs. The validated fields of a request body arrive already converted, as `toInt` and `isString` leave them.
- Event.js `mapRow` is not modelled separately; it has the same shape as `KindergartenModel.MapRow`.
- Event.js `create`/`update` are modelled as the shared `EventModel.PrepareWrite`, without the statement they issue.
- `createTable`, `findById`, `findByCertificateNo` and `findNamespaces` are not modelled: they are single SELECT or DDL statements with no decision in them.
- Certificate `update` is modelled with the status as a given value; MySQL's handling of an invalid ENUM value is not modelled.
- The GET routes of the certificates router are not modelled.
- In the bulk marker import, a database failure while reading (rather than creating) is not modelled. Neither is the default of a non-array `markers` to `[]`: the inputs are the array.
- MapContinent `create`/`update`: the conversion of `sortOrder` through `Number` and the `photo.sortOrder` fallback at insert time are kept only as far as `FiniteOr` states them.
- Translation.FreshImportThenExport: the round trip is proved leaf by leaf for payloads whose object keys are non-empty, free of dots and whitespace, not all digits, and distinct. Other payloads can lose leaves on the way: two keys that sanitise alike share a row, and a dotted key is split on export. That the exported tree has no other members is not stated.
- JsRuntime.StrToNumber: `Number(v)` of text with a decimal point or an exponent, and of "Infinity", is NaN here. In JavaScript these are numbers, so `?page=1.5` or `?page=Infinity` is a different page there. Signed and unsigned decimal text and the 0x, 0o and 0b prefixes are modelled.
- ContactMessageModel.UserAgent: the 255 limit counts characters here, while `.slice(0, 255)` counts UTF-16 code units. An agent with characters outside the Basic Multilingual Plane is cut later here than in JavaScript, where the cut can also split a surrogate pair.
- TranslationKeys.AssignToTree: a `__proto__` segment is an ordinary field here. In JavaScript `base['__proto__']` reads `Object.prototype`: exporting a row with key `__proto__.x` writes `x` onto `Object.prototype` for the whole process, and a row with key `__proto__` alone is dropped. The JavaScript prototype is not part of this model.
- CertificateModel.InsertOne: a failed `INSERT` leaves the id counter unchanged. InnoDB uses up an `AUTO_INCREMENT` value on a duplicate-key failure, so the real table's ids can have gaps the model's do not. The same holds for Translation.CreateSpec and for the rolled-back MapContinentModel.CreateSpec.
- TranslationKeys.AssignToTree: an all-digit segment is an array index here whatever its size. JavaScript treats a digit segment of 2^32 - 1 or more as a property name, not an array slot.

## Findings

| source | as written | input that shows it | evidently intended | confidence | as-written member | corrected member |
|---|---|---|---|---|---|---|
| backend/src/models/Certificate.js:57-59 | the page is `Number(page) \|\| 1`, which replaces 0 and NaN but lets a negative page through | page = -1 with limit 10 (the default) gives `OFFSET -20`, an invalid query | the page is at least 1, as the limit is clamped to at least 1 | not executed | CertificateModel.FindAllAsWritten (shown by CertificateModel.NegativePageOffset) | CertificateModel.FindAll (valid window; CertificateModel.FindAllAgrees shows it differs only for pages below 1) |
