/**
 * The translation key engine: key sanitising, namespace derivation, locale
 * value normalisation, flattening a nested locale payload into dotted keys,
 * and assembling dotted keys back into a tree.
 */
module TranslationKeys {
  import opened JsRuntime

  // ---------------------------------------------------------------------
  // Keys and namespaces
  // ---------------------------------------------------------------------

  /**
   * `sanitizeFullKey`: a non-string is the empty key; a string loses every
   * whitespace character. The source trims before removing whitespace;
   * `SanitizeTrimsFirst` shows that the trim makes no difference.
   */
  function SanitizeFullKey(fullKey: Json): (r: string)
    ensures !fullKey.JStr? ==> r == ""
  {
    if fullKey.JStr? then RemoveWhitespace(fullKey.s) else ""
  }

  /** A sanitised key has no whitespace and is never longer than the string it came from. */
  lemma SanitizeClean(fullKey: Json)
    ensures NoWhitespace(SanitizeFullKey(fullKey))
    ensures fullKey.JStr? ==> |SanitizeFullKey(fullKey)| <= |fullKey.s|
  {
    if fullKey.JStr? {
      RemoveWhitespaceClean(fullKey.s);
    }
  }

  /**
   * Sanitising works character by character: the key of a concatenation is
   * the concatenation of the keys, and a single character survives exactly
   * when it is not whitespace. Together these fix the result for every string.
   */
  lemma SanitizeConcat(a: string, b: string)
    ensures SanitizeFullKey(JStr(a + b)) == SanitizeFullKey(JStr(a)) + SanitizeFullKey(JStr(b))
  {
    RemoveWhitespaceAppend(a, b);
  }

  lemma SanitizeChar(c: char)
    ensures SanitizeFullKey(JStr([c])) == if IsWhitespace(c) then "" else [c]
  {
    RemoveWhitespaceChar(c);
  }

  /** Trimming the key before removing its whitespace gives the same key. */
  lemma SanitizeTrimsFirst(s: string)
    ensures SanitizeFullKey(JStr(s)) == RemoveWhitespace(Trim(s))
  {
    RemoveWhitespaceOfTrim(s);
  }

  /** Sanitising a sanitised key changes nothing. */
  lemma SanitizeIdempotent(fullKey: Json)
    ensures SanitizeFullKey(JStr(SanitizeFullKey(fullKey))) == SanitizeFullKey(fullKey)
  {
    SanitizeClean(fullKey);
    RemoveWhitespaceOfClean(SanitizeFullKey(fullKey));
  }

  /** A key without whitespace is its own sanitised form. */
  lemma SanitizeOfClean(key: string)
    requires NoWhitespace(key)
    ensures SanitizeFullKey(JStr(key)) == key
  {
    RemoveWhitespaceOfClean(key);
  }

  const RootNamespace := "root"

  /**
   * `deriveNamespace`: 'root' for the empty key and for a key whose trimmed
   * form is empty or starts with '.'; otherwise the (non-empty) text of the
   * trimmed key before its first '.'.
   */
  function DeriveNamespace(fullKey: string): (r: string)
    ensures r != ""
    ensures var t := Trim(fullKey);
      (r == RootNamespace && (t == "" || t[0] == '.'))
      || (r <= t && '.' !in r && (|r| == |t| || t[|r|] == '.'))
    ensures var t := Trim(fullKey);
      t != "" && t[0] != '.' ==> r <= t && '.' !in r && (|r| == |t| || t[|r|] == '.')
  {
    if fullKey == "" then RootNamespace
    else
      var t := Trim(fullKey);
      SplitFirst(t, '.');
      var first := Split(t, '.')[0];
      if first == "" then RootNamespace else first
  }

  // ---------------------------------------------------------------------
  // Locale values
  // ---------------------------------------------------------------------

  /** `Object.entries(v)` of an array or a plain object. */
  function ObjectEntries(v: Json): (es: seq<(string, Json)>)
    requires IsContainer(v)
    ensures v.JObj? ==> es == v.fields
    ensures v.JArr? ==> |es| == |v.items|
    ensures v.JArr? ==> forall i :: 0 <= i < |es| ==> es[i] == (NatToDecimal(i), v.items[i])
  {
    match v
    case JObj(fields) => fields
    case JArr(items) => seq(|items|, i requires 0 <= i < |items| => (NatToDecimal(i), items[i]))
  }

  /**
   * The locale map the entries fold into: null and undefined entries are
   * skipped, every other entry is stored as `String(value)` under its key,
   * and a later entry overrides an earlier one with the same key.
   */
  function ValuesFrom(es: seq<(string, Json)>): (m: map<string, string>)
  {
    if es == [] then map[]
    else
      var prev := ValuesFrom(es[..|es| - 1]);
      var (k, v) := es[|es| - 1];
      if IsNullish(v) then prev else prev[k := ToStr(v)]
  }

  /** A key is present exactly when some entry with that key is not null or undefined. */
  lemma {:induction false} ValuesFromKeys(es: seq<(string, Json)>, k: string)
    ensures k in ValuesFrom(es) <==> exists i :: 0 <= i < |es| && es[i].0 == k && !IsNullish(es[i].1)
    decreases |es|
  {
    if es != [] {
      var init := es[..|es| - 1];
      ValuesFromKeys(init, k);
      assert forall i :: 0 <= i < |init| ==> init[i] == es[i];
    }
  }

  /** The value under a key is the string form of its last non-null entry. */
  lemma {:induction false} ValuesFromLast(es: seq<(string, Json)>, i: nat)
    requires i < |es| && !IsNullish(es[i].1)
    requires forall j :: i < j < |es| && es[j].0 == es[i].0 ==> IsNullish(es[j].1)
    ensures es[i].0 in ValuesFrom(es) && ValuesFrom(es)[es[i].0] == ToStr(es[i].1)
    decreases |es|
  {
    var init := es[..|es| - 1];
    if i < |es| - 1 {
      assert forall j :: 0 <= j < |init| ==> init[j] == es[j];
      ValuesFromLast(init, i);
    }
  }

  /**
   * `normalizeLocaleValues` (and `normalizeValues` of the admin route): a
   * value that is not an array or object gives the empty map.
   */
  function LocaleValues(values: Json): (m: map<string, string>)
    ensures !IsContainer(values) ==> m == map[]
  {
    if IsContainer(values) then ValuesFrom(ObjectEntries(values)) else map[]
  }

  /** No key is ever added: every key of the result is a key of the input. */
  lemma LocaleValuesKeys(values: Json, k: string)
    requires k in LocaleValues(values)
    ensures IsContainer(values)
    ensures exists i :: 0 <= i < |ObjectEntries(values)| && ObjectEntries(values)[i].0 == k
  {
    ValuesFromKeys(ObjectEntries(values), k);
  }

  /**
   * For an object with distinct keys, each non-null entry is present as its
   * string form and each null or undefined entry is absent.
   */
  lemma LocaleValuesOfObject(fields: seq<(string, Json)>, i: nat)
    requires i < |fields|
    requires forall a, b :: 0 <= a < b < |fields| ==> fields[a].0 != fields[b].0
    ensures IsNullish(fields[i].1) ==> fields[i].0 !in LocaleValues(JObj(fields))
    ensures !IsNullish(fields[i].1) ==>
      fields[i].0 in LocaleValues(JObj(fields)) && LocaleValues(JObj(fields))[fields[i].0] == ToStr(fields[i].1)
  {
    ValuesFromKeys(fields, fields[i].0);
    if !IsNullish(fields[i].1) {
      ValuesFromLast(fields, i);
    }
  }

  /** `normalizeLocaleValues` as written: a loop over `Object.entries`. */
  method NormalizeLocaleValues(values: Json) returns (normalized: map<string, string>)
    ensures normalized == LocaleValues(values)
  {
    normalized := map[];
    if !IsContainer(values) {
      return;
    }
    var es := ObjectEntries(values);
    var i := 0;
    while i < |es|
      invariant 0 <= i <= |es|
      invariant normalized == ValuesFrom(es[..i])
    {
      var (locale, val) := es[i];
      assert es[..i + 1][..i] == es[..i];
      if !IsNullish(val) {
        normalized := normalized[locale := ToStr(val)];
      }
      i := i + 1;
    }
    assert es[..i] == es;
  }

  /**
   * `safeParseJSON`: a falsy value is `{}`, an object or array is passed
   * through, anything else is `JSON.parse(String(value))`, and a parse
   * failure is `{}`. `jsonParse` stands for `JSON.parse` (`None` when it throws).
   */
  function SafeParseJSON(value: Json, jsonParse: string -> Option<Json>): (r: Json)
    ensures !Truthy(value) ==> r == JObj([])
    ensures IsContainer(value) ==> r == value
    ensures Truthy(value) && !IsContainer(value) && jsonParse(ToStr(value)).None? ==> r == JObj([])
    ensures Truthy(value) && !IsContainer(value) && jsonParse(ToStr(value)).Some? ==> r == jsonParse(ToStr(value)).value
  {
    if !Truthy(value) then JObj([])
    else if IsContainer(value) then value
    else
      match jsonParse(ToStr(value))
      case None => JObj([])
      case Some(parsed) => parsed
  }

  // ---------------------------------------------------------------------
  // Flattening
  // ---------------------------------------------------------------------

  /** One imported key: the dotted full key, the text and the label. */
  datatype FlatEntry = FlatEntry(fullKey: string, value: string, labelText: string)

  /** The key under a non-empty prefix, joined with a dot; the key alone under an empty one. */
  function NextPrefix(prefix: string, key: string): string
  {
    if prefix != "" then prefix + "." + key else key
  }

  /** The last dot-separated segment of a key path, or the whole path when that segment is empty. */
  function LastSegmentOr(keyPath: string): string
  {
    var pieces := Split(keyPath, '.');
    if pieces[|pieces| - 1] != "" then pieces[|pieces| - 1] else keyPath
  }

  /** `flattenPayload(payload, prefix)` */
  function Flatten(payload: Json, prefix: string): seq<FlatEntry>
    decreases payload, 1, 0
  {
    match payload
    case JArr(items) => FlattenItems(payload, prefix, |items|)
    case JObj(fields) => FlattenFields(payload, prefix, |fields|)
    case _ =>
      if prefix != "" then [FlatEntry(prefix, LeafText(payload), LastSegmentOr(prefix))] else []
  }

  /** The entries of the first `n` array elements. */
  function FlattenItems(payload: Json, prefix: string, n: nat): seq<FlatEntry>
    requires payload.JArr? && n <= |payload.items|
    decreases payload, 0, n
  {
    if n == 0 then []
    else
      var item := payload.items[n - 1];
      assert item in payload.items;
      var keyPath := NextPrefix(prefix, NatToDecimal(n - 1));
      FlattenItems(payload, prefix, n - 1)
        + (if IsContainer(item) then Flatten(item, keyPath)
           else [FlatEntry(keyPath, LeafText(item), LastSegmentOr(keyPath))])
  }

  /** The entries of the first `n` object fields. */
  function FlattenFields(payload: Json, prefix: string, n: nat): seq<FlatEntry>
    requires payload.JObj? && n <= |payload.fields|
    decreases payload, 0, n
  {
    if n == 0 then []
    else
      var (key, value) := payload.fields[n - 1];
      assert payload.fields[n - 1] in payload.fields;
      var keyPath := NextPrefix(prefix, key);
      FlattenFields(payload, prefix, n - 1)
        + (if IsContainer(value) then Flatten(value, keyPath)
           else [FlatEntry(keyPath, LeafText(value), key)])
  }

  /** `flattenPayload` as written: `forEach` loops pushing into `entries`. */
  method FlattenPayload(payload: Json, prefix: string) returns (entries: seq<FlatEntry>)
    ensures entries == Flatten(payload, prefix)
    decreases payload, 1
  {
    match payload {
      case JArr(_) =>
        entries := FlattenArray(payload, prefix);
      case JObj(_) =>
        entries := FlattenObject(payload, prefix);
      case _ =>
        entries := [];
        if prefix != "" {
          entries := [FlatEntry(prefix, LeafText(payload), LastSegmentOr(prefix))];
        }
    }
  }

  /** The array branch of `flattenPayload`. */
  method FlattenArray(payload: Json, prefix: string) returns (entries: seq<FlatEntry>)
    requires payload.JArr?
    ensures entries == FlattenItems(payload, prefix, |payload.items|)
    decreases payload, 0
  {
    var items := payload.items;
    entries := [];
    var index := 0;
    while index < |items|
      invariant 0 <= index <= |items|
      invariant entries == FlattenItems(payload, prefix, index)
    {
      var item := items[index];
      assert item in items;
      var keyPath := NextPrefix(prefix, NatToDecimal(index));
      if IsContainer(item) {
        var nested := FlattenPayload(item, keyPath);
        entries := entries + nested;
      } else {
        entries := entries + [FlatEntry(keyPath, LeafText(item), LastSegmentOr(keyPath))];
      }
      index := index + 1;
    }
  }

  /** The object branch of `flattenPayload`. */
  method FlattenObject(payload: Json, prefix: string) returns (entries: seq<FlatEntry>)
    requires payload.JObj?
    ensures entries == FlattenFields(payload, prefix, |payload.fields|)
    decreases payload, 0
  {
    var fields := payload.fields;
    entries := [];
    var index := 0;
    while index < |fields|
      invariant 0 <= index <= |fields|
      invariant entries == FlattenFields(payload, prefix, index)
    {
      var (key, value) := fields[index];
      assert fields[index] in fields;
      var keyPath := NextPrefix(prefix, key);
      if IsContainer(value) {
        var nested := FlattenPayload(value, keyPath);
        entries := entries + nested;
      } else {
        entries := entries + [FlatEntry(keyPath, LeafText(value), key)];
      }
      index := index + 1;
    }
  }

  // ---------------------------------------------------------------------
  // The leaves of a payload, independently of any prefix
  // ---------------------------------------------------------------------

  /**
   * A leaf of a payload: its path of segments (array positions in decimal),
   * its stored text, and the label `flattenPayload` gives it.
   */
  datatype Leaf = Leaf(path: seq<string>, text: string, labelText: string)

  /** The leaves of a child, seen from its parent under `key`. */
  function Under(key: string, ls: seq<Leaf>): (r: seq<Leaf>)
    ensures |r| == |ls|
    ensures forall i :: 0 <= i < |r| ==>
      r[i] == Leaf([key] + ls[i].path, ls[i].text, if ls[i].path == [] then key else ls[i].labelText)
  {
    seq(|ls|, i requires 0 <= i < |ls| =>
      Leaf([key] + ls[i].path, ls[i].text, if ls[i].path == [] then key else ls[i].labelText))
  }

  /**
   * Every scalar or null is one leaf; arrays and objects contribute the
   * leaves of their members, in index and entry order, depth first, so an
   * empty array or object contributes none.
   */
  function Leaves(v: Json): (ls: seq<Leaf>)
    ensures IsContainer(v) ==> forall i :: 0 <= i < |ls| ==> ls[i].path != []
    ensures !IsContainer(v) ==> ls == [Leaf([], LeafText(v), "")]
    decreases v, 1, 0
  {
    match v
    case JArr(items) => LeavesOfItems(v, |items|)
    case JObj(fields) => LeavesOfFields(v, |fields|)
    case _ => [Leaf([], LeafText(v), "")]
  }

  function LeavesOfItems(v: Json, n: nat): (ls: seq<Leaf>)
    requires v.JArr? && n <= |v.items|
    ensures forall i :: 0 <= i < |ls| ==> ls[i].path != []
    decreases v, 0, n
  {
    if n == 0 then []
    else
      assert v.items[n - 1] in v.items;
      LeavesOfItems(v, n - 1) + Under(NatToDecimal(n - 1), Leaves(v.items[n - 1]))
  }

  function LeavesOfFields(v: Json, n: nat): (ls: seq<Leaf>)
    requires v.JObj? && n <= |v.fields|
    ensures forall i :: 0 <= i < |ls| ==> ls[i].path != []
    decreases v, 0, n
  {
    if n == 0 then []
    else
      assert v.fields[n - 1] in v.fields;
      LeavesOfFields(v, n - 1) + Under(v.fields[n - 1].0, Leaves(v.fields[n - 1].1))
  }

  /** The key a path gets below a prefix: `NextPrefix` applied segment by segment. */
  function JoinPrefix(prefix: string, path: seq<string>): string
    decreases |path|
  {
    if path == [] then prefix else JoinPrefix(NextPrefix(prefix, path[0]), path[1..])
  }

  /** The entries a sequence of leaves becomes below a prefix. */
  function ToEntries(prefix: string, ls: seq<Leaf>): (es: seq<FlatEntry>)
    ensures |es| == |ls|
  {
    seq(|ls|, i requires 0 <= i < |ls| =>
      FlatEntry(JoinPrefix(prefix, ls[i].path), ls[i].text,
        if ls[i].path == [] then LastSegmentOr(prefix) else ls[i].labelText))
  }

  lemma ToEntriesAppend(prefix: string, a: seq<Leaf>, b: seq<Leaf>)
    ensures ToEntries(prefix, a + b) == ToEntries(prefix, a) + ToEntries(prefix, b)
  {
    assert forall i :: 0 <= i < |a + b| ==> ToEntries(prefix, a + b)[i] == (ToEntries(prefix, a) + ToEntries(prefix, b))[i];
  }

  /** Entries of a child's leaves under the child's key path are the parent's entries. */
  lemma ToEntriesUnder(prefix: string, key: string, ls: seq<Leaf>)
    requires forall i :: 0 <= i < |ls| ==> ls[i].path != []
    ensures ToEntries(NextPrefix(prefix, key), ls) == ToEntries(prefix, Under(key, ls))
  {
    var u := Under(key, ls);
    forall i | 0 <= i < |ls|
      ensures ToEntries(NextPrefix(prefix, key), ls)[i] == ToEntries(prefix, u)[i]
    {
      assert u[i].path[1..] == ls[i].path;
    }
  }

  /** The label of an array leaf is its index: the last piece of its key path. */
  lemma LastSegmentOfNext(prefix: string, key: string)
    requires key != "" && '.' !in key
    ensures LastSegmentOr(NextPrefix(prefix, key)) == key
  {
    if prefix != "" {
      SplitAppendPiece(prefix, '.', key);
      assert prefix + "." + key == prefix + ['.'] + key;
    } else {
      SplitNoSeparator(key, '.');
    }
  }

  /** A scalar member is one entry under its own key, labelled with that key. */
  lemma ToEntriesScalarUnder(prefix: string, key: string, v: Json)
    requires !IsContainer(v)
    ensures ToEntries(prefix, Under(key, Leaves(v))) == [FlatEntry(NextPrefix(prefix, key), LeafText(v), key)]
  {
    var u := Under(key, Leaves(v));
    assert Leaves(v)[0].path == [];
    assert [key] + Leaves(v)[0].path == [key];
    assert u[0] == Leaf([key], LeafText(v), key);
    assert u == [Leaf([key], LeafText(v), key)];
    assert [key][1..] == [];
    assert JoinPrefix(prefix, [key]) == NextPrefix(prefix, key);
  }

  /** A key segment that survives a round trip through a dotted key: non-empty, no dot, no whitespace. */
  predicate CleanKey(k: string)
  {
    k != "" && '.' !in k && NoWhitespace(k)
  }

  predicate CleanSegments(path: seq<string>)
  {
    forall i :: 0 <= i < |path| ==> CleanKey(path[i])
  }

  /**
   * A payload whose every object has clean keys that are not indexes
   * (all digits) and are pairwise distinct.
   */
  predicate WellKeyed(v: Json)
    decreases v
  {
    match v
    case JArr(items) => forall x :: x in items ==> WellKeyed(x)
    case JObj(fields) =>
      (forall f :: f in fields ==> CleanKey(f.0) && !IsDigits(f.0) && WellKeyed(f.1))
      && (forall k, m :: 0 <= k < m < |fields| ==> fields[k].0 != fields[m].0)
    case _ => true
  }

  predicate PathsClean(ls: seq<Leaf>)
  {
    forall i :: 0 <= i < |ls| ==> CleanSegments(ls[i].path)
  }

  /** Every two leaves sit at diverging paths. */
  predicate PathsDiverge(ls: seq<Leaf>)
  {
    forall i, j :: 0 <= i < j < |ls| ==> Diverge(ls[i].path, ls[j].path)
  }

  lemma DivergeUnder(key: string, p: seq<string>, q: seq<string>)
    requires Diverge(p, q)
    ensures Diverge([key] + p, [key] + q)
  {
    var k :| 0 <= k < |p| && k < |q| && p[..k] == q[..k] && Apart(p[k], q[k]);
    assert ([key] + p)[..k + 1] == [key] + p[..k] && ([key] + q)[..k + 1] == [key] + q[..k];
    assert ([key] + p)[k + 1] == p[k] && ([key] + q)[k + 1] == q[k];
  }

  lemma DivergeHeads(p: seq<string>, q: seq<string>)
    requires p != [] && q != [] && Apart(p[0], q[0])
    ensures Diverge(p, q)
  {
    assert p[..0] == q[..0];
  }

  lemma DivergeSymmetric(p: seq<string>, q: seq<string>)
    requires Diverge(p, q)
    ensures Diverge(q, p)
  {
    var k :| 0 <= k < |p| && k < |q| && p[..k] == q[..k] && Apart(p[k], q[k]);
    assert Apart(q[k], p[k]);
  }

  /** Leaves moved under one clean key keep clean, diverging paths, all headed by that key. */
  lemma UnderKeeps(key: string, ls: seq<Leaf>)
    requires CleanKey(key) && PathsClean(ls) && PathsDiverge(ls)
    ensures PathsClean(Under(key, ls)) && PathsDiverge(Under(key, ls))
    ensures forall i :: 0 <= i < |ls| ==> Under(key, ls)[i].path[0] == key
  {
    var u := Under(key, ls);
    forall i | 0 <= i < |u| ensures CleanSegments(u[i].path) {
      assert u[i].path == [key] + ls[i].path;
    }
    forall i, j | 0 <= i < j < |u| ensures Diverge(u[i].path, u[j].path) {
      DivergeUnder(key, ls[i].path, ls[j].path);
    }
  }

  /** Two runs of leaves that diverge within themselves and from each other diverge together. */
  lemma PathsDivergeAppend(a: seq<Leaf>, b: seq<Leaf>)
    requires PathsDiverge(a) && PathsDiverge(b)
    requires forall i, j :: 0 <= i < |a| && 0 <= j < |b| ==> Diverge(a[i].path, b[j].path)
    ensures PathsDiverge(a + b)
  {
    forall i, j | 0 <= i < j < |a + b| ensures Diverge((a + b)[i].path, (a + b)[j].path) {
      if j < |a| {
      } else if i >= |a| {
        assert (a + b)[i] == b[i - |a|] && (a + b)[j] == b[j - |a|];
      } else {
        assert (a + b)[j] == b[j - |a|];
      }
    }
  }

  /** The leaves of a well-keyed payload sit at clean, pairwise diverging paths. */
  lemma {:induction false} LeavesWellKeyed(v: Json)
    requires WellKeyed(v)
    ensures PathsClean(Leaves(v)) && PathsDiverge(Leaves(v))
    decreases v, 1
  {
    match v
    case JArr(items) => LeavesOfItemsWellKeyed(v, |items|);
    case JObj(fields) => LeavesOfFieldsWellKeyed(v, |fields|);
    case _ =>
  }

  lemma {:induction false} LeavesOfItemsWellKeyed(v: Json, n: nat)
    requires v.JArr? && n <= |v.items| && WellKeyed(v)
    ensures PathsClean(LeavesOfItems(v, n)) && PathsDiverge(LeavesOfItems(v, n))
    ensures IndexHeads(LeavesOfItems(v, n), n)
    decreases v, 0, n
  {
    if n > 0 {
      LeavesOfItemsWellKeyed(v, n - 1);
      var child := v.items[n - 1];
      assert child in v.items;
      LeavesWellKeyed(child);
      IndexKeyClean(n - 1);
      UnderKeeps(NatToDecimal(n - 1), Leaves(child));
      ItemsAppend(v, n);
    }
  }

  /** Every leaf is headed by an index below `n`. */
  predicate IndexHeads(ls: seq<Leaf>, n: nat)
  {
    forall i :: 0 <= i < |ls| ==>
      (ls[i].path != [] && IsDigits(ls[i].path[0]) && DigitsValue(ls[i].path[0]) < n)
  }

  lemma IndexKeyClean(n: nat)
    ensures CleanKey(NatToDecimal(n)) && IsDigits(NatToDecimal(n)) && DigitsValue(NatToDecimal(n)) == n
  {
    var key := NatToDecimal(n);
    DecimalRoundTrip(n);
    forall c | 0 <= c < |key| ensures !IsWhitespace(key[c]) && key[c] != '.' {
      assert '0' <= key[c] <= '9';
    }
  }

  /** The step of LeavesOfItemsWellKeyed: appending one item's leaves to those of the earlier items. */
  lemma ItemsAppend(v: Json, n: nat)
    requires v.JArr? && 0 < n <= |v.items|
    requires PathsClean(LeavesOfItems(v, n - 1)) && PathsDiverge(LeavesOfItems(v, n - 1))
    requires IndexHeads(LeavesOfItems(v, n - 1), n - 1)
    requires IsDigits(NatToDecimal(n - 1)) && DigitsValue(NatToDecimal(n - 1)) == n - 1
    requires var b := Under(NatToDecimal(n - 1), Leaves(v.items[n - 1]));
      PathsClean(b) && PathsDiverge(b) && forall i :: 0 <= i < |b| ==> b[i].path[0] == NatToDecimal(n - 1)
    ensures PathsClean(LeavesOfItems(v, n)) && PathsDiverge(LeavesOfItems(v, n))
    ensures IndexHeads(LeavesOfItems(v, n), n)
  {
    var key := NatToDecimal(n - 1);
    var a, b := LeavesOfItems(v, n - 1), Under(key, Leaves(v.items[n - 1]));
    assert LeavesOfItems(v, n) == a + b;
    forall i, j | 0 <= i < |a| && 0 <= j < |b| ensures Diverge(a[i].path, b[j].path) {
      DivergeHeads(a[i].path, b[j].path);
    }
    PathsDivergeAppend(a, b);
    forall i | 0 <= i < |a + b|
      ensures CleanSegments((a + b)[i].path) && (a + b)[i].path != []
      ensures IsDigits((a + b)[i].path[0]) && DigitsValue((a + b)[i].path[0]) < n
    {
      if i >= |a| { assert (a + b)[i] == b[i - |a|]; }
    }
  }

  lemma {:induction false} LeavesOfFieldsWellKeyed(v: Json, n: nat)
    requires v.JObj? && n <= |v.fields| && WellKeyed(v)
    ensures PathsClean(LeavesOfFields(v, n)) && PathsDiverge(LeavesOfFields(v, n))
    ensures HeadsBefore(LeavesOfFields(v, n), v.fields, n)
    decreases v, 0, n
  {
    if n > 0 {
      LeavesOfFieldsWellKeyed(v, n - 1);
      var f := v.fields[n - 1];
      assert f in v.fields;
      LeavesWellKeyed(f.1);
      UnderKeeps(f.0, Leaves(f.1));
      FieldsAppend(v, n);
    }
  }

  /** Every leaf is headed by a non-index key other than those of the fields from `n` on. */
  predicate HeadsBefore(ls: seq<Leaf>, fields: seq<(string, Json)>, n: nat)
  {
    forall i :: 0 <= i < |ls| ==>
      (ls[i].path != [] && !IsDigits(ls[i].path[0])
       && forall m :: n <= m < |fields| ==> ls[i].path[0] != fields[m].0)
  }

  /** The step of LeavesOfFieldsWellKeyed: appending one field's leaves to those of the earlier fields. */
  lemma FieldsAppend(v: Json, n: nat)
    requires v.JObj? && 0 < n <= |v.fields| && WellKeyed(v)
    requires PathsClean(LeavesOfFields(v, n - 1)) && PathsDiverge(LeavesOfFields(v, n - 1))
    requires HeadsBefore(LeavesOfFields(v, n - 1), v.fields, n - 1)
    requires var f := v.fields[n - 1]; var b := Under(f.0, Leaves(f.1));
      PathsClean(b) && PathsDiverge(b) && forall i :: 0 <= i < |b| ==> b[i].path[0] == f.0
    ensures PathsClean(LeavesOfFields(v, n)) && PathsDiverge(LeavesOfFields(v, n))
    ensures HeadsBefore(LeavesOfFields(v, n), v.fields, n)
  {
    var f := v.fields[n - 1];
    assert f in v.fields;
    var a, b := LeavesOfFields(v, n - 1), Under(f.0, Leaves(f.1));
    assert LeavesOfFields(v, n) == a + b;
    forall i, j | 0 <= i < |a| && 0 <= j < |b| ensures Diverge(a[i].path, b[j].path) {
      DivergeHeads(a[i].path, b[j].path);
    }
    PathsDivergeAppend(a, b);
    forall i | 0 <= i < |a + b| ensures CleanSegments((a + b)[i].path) {
      if i >= |a| { assert (a + b)[i] == b[i - |a|]; }
    }
    forall i, m | 0 <= i < |a + b| && n <= m < |v.fields|
      ensures !IsDigits((a + b)[i].path[0]) && (a + b)[i].path[0] != v.fields[m].0
    {
      if i >= |a| {
        assert (a + b)[i] == b[i - |a|];
        assert v.fields[m] in v.fields;
      }
    }
  }

  lemma DecimalHasNoDot(n: nat)
    ensures NatToDecimal(n) != "" && '.' !in NatToDecimal(n)
  {
    var d := NatToDecimal(n);
    DecimalRoundTrip(n);
    assert forall i :: 0 <= i < |d| ==> d[i] != '.';
  }

  /**
   * `flattenPayload(v, prefix)` emits exactly the leaves of `v`, in order,
   * each under the prefix joined with its path; only a scalar at the root
   * with an empty prefix emits nothing.
   */
  lemma {:induction false} FlattenIsLeaves(v: Json, prefix: string)
    ensures Flatten(v, prefix) == if prefix == "" && !IsContainer(v) then [] else ToEntries(prefix, Leaves(v))
    decreases v, 1, 0
  {
    match v
    case JArr(items) => FlattenItemsIsLeaves(v, prefix, |items|);
    case JObj(fields) => FlattenFieldsIsLeaves(v, prefix, |fields|);
    case _ =>
  }

  lemma {:induction false} FlattenItemsIsLeaves(v: Json, prefix: string, n: nat)
    requires v.JArr? && n <= |v.items|
    ensures FlattenItems(v, prefix, n) == ToEntries(prefix, LeavesOfItems(v, n))
    decreases v, 0, n
  {
    if n > 0 {
      var item := v.items[n - 1];
      assert item in v.items;
      var d := NatToDecimal(n - 1);
      var keyPath := NextPrefix(prefix, d);
      FlattenItemsIsLeaves(v, prefix, n - 1);
      ToEntriesAppend(prefix, LeavesOfItems(v, n - 1), Under(d, Leaves(item)));
      DecimalHasNoDot(n - 1);
      if IsContainer(item) {
        FlattenIsLeaves(item, keyPath);
        ToEntriesUnder(prefix, d, Leaves(item));
      } else {
        LastSegmentOfNext(prefix, d);
        ToEntriesScalarUnder(prefix, d, item);
      }
    }
  }

  lemma {:induction false} FlattenFieldsIsLeaves(v: Json, prefix: string, n: nat)
    requires v.JObj? && n <= |v.fields|
    ensures FlattenFields(v, prefix, n) == ToEntries(prefix, LeavesOfFields(v, n))
    decreases v, 0, n
  {
    if n > 0 {
      var (key, value) := v.fields[n - 1];
      assert v.fields[n - 1] in v.fields;
      var keyPath := NextPrefix(prefix, key);
      FlattenFieldsIsLeaves(v, prefix, n - 1);
      ToEntriesAppend(prefix, LeavesOfFields(v, n - 1), Under(key, Leaves(value)));
      if IsContainer(value) {
        FlattenIsLeaves(value, keyPath);
        ToEntriesUnder(prefix, key, Leaves(value));
      } else {
        ToEntriesScalarUnder(prefix, key, value);
      }
    }
  }

  /** Consequences: one entry per leaf, and empty containers vanish. */
  lemma FlattenCount(v: Json)
    requires IsContainer(v)
    ensures |Flatten(v, "")| == |Leaves(v)|
  {
    FlattenIsLeaves(v, "");
  }

  lemma FlattenEmptyContainers(prefix: string)
    ensures Flatten(JArr([]), prefix) == [] && Flatten(JObj([]), prefix) == []
  {
  }

  // ---------------------------------------------------------------------
  // Assembling
  // ---------------------------------------------------------------------

  /**
   * The exported tree. Arrays may have holes (`None`), which is how a JS
   * array written at index 3 before index 1 looks.
   */
  datatype Tree = TLeaf(text: string) | TArr(slots: seq<Option<Tree>>) | TObj(fields: seq<(string, Tree)>)

  /** The target when it is an array, else a new empty array. */
  function ArrayBase(target: Option<Tree>): seq<Option<Tree>>
  {
    if target.Some? && target.value.TArr? then target.value.slots else []
  }

  /** The target when it is a plain object, else a new empty object. */
  function ObjectBase(target: Option<Tree>): seq<(string, Tree)>
  {
    if target.Some? && target.value.TObj? then target.value.fields else []
  }

  /** `base[index]` (undefined past the end). */
  function Slot(base: seq<Option<Tree>>, index: nat): Option<Tree>
  {
    if index < |base| then base[index] else None
  }

  /** `base[index] = v`: overwrite, or grow the array with holes up to `index`. */
  function SetSlot(base: seq<Option<Tree>>, index: nat, v: Tree): (r: seq<Option<Tree>>)
    ensures |r| == Max(|base|, index + 1)
    ensures r[index] == Some(v)
    ensures forall j :: 0 <= j < |r| && j != index ==> r[j] == Slot(base, j)
  {
    if index < |base| then base[index := Some(v)]
    else base + seq(index - |base|, _ => None) + [Some(v)]
  }

  /** `base[key]` on an object: the first field with that key. */
  function FieldOf(base: seq<(string, Tree)>, key: string): (r: Option<Tree>)
    ensures r.None? <==> forall i :: 0 <= i < |base| ==> base[i].0 != key
  {
    if base == [] then None
    else if base[0].0 == key then Some(base[0].1)
    else FieldOf(base[1..], key)
  }

  /** `base[key] = v` on an object: overwrite in place, or append a new field. */
  function SetField(base: seq<(string, Tree)>, key: string, v: Tree): (r: seq<(string, Tree)>)
    ensures FieldOf(r, key) == Some(v)
    ensures forall k :: k != key ==> FieldOf(r, k) == FieldOf(base, k)
    ensures FieldOf(base, key).None? ==> r == base + [(key, v)]
    ensures FieldOf(base, key).Some? ==> |r| == |base|
  {
    if base == [] then [(key, v)]
    else if base[0].0 == key then [(key, v)] + base[1..]
    else [base[0]] + SetField(base[1..], key, v)
  }

  /**
   * `assignToTree(target, segments, value)`: a digit segment writes into an
   * array (a non-array target is replaced by a fresh one), any other segment
   * into a plain object (an array or leaf target is replaced).
   */
  function AssignToTree(target: Option<Tree>, segments: seq<string>, value: string): (r: Tree)
    ensures segments == [] ==> r == TLeaf(value)
    ensures segments != [] && IsDigits(segments[0]) ==> r.TArr?
    ensures segments != [] && IsDigits(segments[0]) ==>
      forall j :: 0 <= j < |r.slots| && j != DigitsValue(segments[0]) ==> r.slots[j] == Slot(ArrayBase(target), j)
    ensures segments != [] && !IsDigits(segments[0]) ==> r.TObj?
    ensures segments != [] && !IsDigits(segments[0]) ==>
      forall k :: k != segments[0] ==> FieldOf(r.fields, k) == FieldOf(ObjectBase(target), k)
    decreases |segments|
  {
    if segments == [] then TLeaf(value)
    else
      var head, rest := segments[0], segments[1..];
      if IsDigits(head) then
        var index := DigitsValue(head);
        var base := ArrayBase(target);
        TArr(SetSlot(base, index, AssignToTree(Slot(base, index), rest, value)))
      else
        var base := ObjectBase(target);
        TObj(SetField(base, head, AssignToTree(FieldOf(base, head), rest, value)))
  }

  /** The child a segment selects, read the way `assignToTree` reads it. */
  function Child(t: Option<Tree>, segment: string): Option<Tree>
  {
    if IsDigits(segment) then Slot(ArrayBase(t), DigitsValue(segment))
    else FieldOf(ObjectBase(t), segment)
  }

  /** The subtree at a path. */
  function Get(t: Option<Tree>, path: seq<string>): Option<Tree>
    decreases |path|
  {
    if path == [] then t else Get(Child(t, path[0]), path[1..])
  }

  /** After an assignment the value is readable at exactly that path. */
  lemma {:induction false} AssignThenGet(target: Option<Tree>, segments: seq<string>, value: string)
    ensures Get(Some(AssignToTree(target, segments, value)), segments) == Some(TLeaf(value))
    decreases |segments|
  {
    if segments != [] {
      var head, rest := segments[0], segments[1..];
      var r := AssignToTree(target, segments, value);
      if IsDigits(head) {
        var base := ArrayBase(target);
        var index := DigitsValue(head);
        AssignThenGet(Slot(base, index), rest, value);
        assert Child(Some(r), head) == Some(AssignToTree(Slot(base, index), rest, value));
      } else {
        var base := ObjectBase(target);
        AssignThenGet(FieldOf(base, head), rest, value);
        assert Child(Some(r), head) == Some(AssignToTree(FieldOf(base, head), rest, value));
      }
    }
  }

  /** The child an assignment writes into is the assignment of the rest of the path into the old child. */
  lemma AssignChild(target: Option<Tree>, segments: seq<string>, value: string)
    requires segments != []
    ensures Child(Some(AssignToTree(target, segments, value)), segments[0])
      == Some(AssignToTree(Child(target, segments[0]), segments[1..], value))
  {
  }

  /**
   * Two segments that select different children of the same container:
   * two indexes of different value, or two different keys that are not
   * indexes.
   */
  predicate Apart(a: string, b: string)
  {
    (IsDigits(a) && IsDigits(b) && DigitsValue(a) != DigitsValue(b))
    || (!IsDigits(a) && !IsDigits(b) && a != b)
  }

  /** Two paths that agree up to some segment and then go to different children of the same container. */
  predicate Diverge(p: seq<string>, q: seq<string>)
  {
    exists k :: 0 <= k < |p| && k < |q| && p[..k] == q[..k] && Apart(p[k], q[k])
  }

  /** Assigning at a path leaves every path diverging from it as it was. */
  lemma {:induction false} AssignKeepsGet(target: Option<Tree>, q: seq<string>, value: string, p: seq<string>, k: nat)
    requires k < |p| && k < |q| && p[..k] == q[..k] && Apart(p[k], q[k])
    ensures Get(Some(AssignToTree(target, q, value)), p) == Get(target, p)
    decreases k
  {
    var r := AssignToTree(target, q, value);
    if k == 0 {
      SiblingsUntouched(target, q, value, p[0]);
    } else {
      assert p[0] == q[0] by { assert p[..k][0] == q[..k][0]; }
      AssignChild(target, q, value);
      assert p[1..][..k - 1] == p[..k][1..] && q[1..][..k - 1] == q[..k][1..];
      AssignKeepsGet(Child(target, q[0]), q[1..], value, p[1..], k - 1);
    }
  }

  /**
   * Siblings survive: when the target already has the container kind the
   * head segment asks for, every other child is unchanged.
   */
  lemma SiblingsUntouched(target: Option<Tree>, segments: seq<string>, value: string, other: string)
    requires segments != [] && other != segments[0]
    requires IsDigits(segments[0]) <==> IsDigits(other)
    requires IsDigits(other) ==> DigitsValue(other) != DigitsValue(segments[0])
    ensures Child(Some(AssignToTree(target, segments, value)), other) == Child(target, other)
  {
  }
}
