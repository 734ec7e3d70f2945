/**
 * The decision logic of the public router: locale negotiation, the
 * message table, the per-IP contact-form rate limiter, the certificate
 * search key and the input gate of the continent-photos lookup.
 */
module PublicRoute {
  import opened JsRuntime
  import opened Normalizers

  // ---------------------------------------------------------------------
  // Locales
  // ---------------------------------------------------------------------

  const DefaultI18nLocales: seq<string> := ["zh", "en"]

  /** Every piece lower-cased. */
  function LowerEach(pieces: seq<string>): (r: seq<string>)
    ensures |r| == |pieces|
    ensures forall i :: 0 <= i < |r| ==> r[i] == ToLower(pieces[i])
    ensures forall i :: 0 <= i < |r| ==> |r[i]| == |pieces[i]| && IsLower(r[i])
  {
    seq(|pieces|, i requires 0 <= i < |pieces| => ToLower(pieces[i]))
  }

  /**
   * `I18N_LOCALES`: the comma-separated setting with every piece trimmed and
   * lower-cased and blank pieces dropped (lower-casing keeps the length, so
   * dropping before or after it is the same); when nothing remains, zh and en.
   */
  function I18nLocales(env: Option<string>): (r: seq<string>)
    ensures |r| >= 1
    ensures var pieces := TrimmedNonEmpty(Split(if env.Some? then env.value else "", ','));
      (pieces == [] ==> r == DefaultI18nLocales) && (pieces != [] ==> r == LowerEach(pieces))
  {
    var pieces := TrimmedNonEmpty(Split(if env.Some? then env.value else "", ','));
    if pieces == [] then DefaultI18nLocales else LowerEach(pieces)
  }

  /** Every locale on the list is non-empty and lower-case. */
  lemma I18nLocalesLower(env: Option<string>)
    ensures forall i :: 0 <= i < |I18nLocales(env)| ==> I18nLocales(env)[i] != "" && IsLower(I18nLocales(env)[i])
  {
    var pieces := TrimmedNonEmpty(Split(if env.Some? then env.value else "", ','));
    var r := I18nLocales(env);
    if pieces == [] {
      assert IsLower(DefaultI18nLocales[0]) && IsLower(DefaultI18nLocales[1]);
    } else {
      TrimmedNonEmptyClean(Split(if env.Some? then env.value else "", ','));
      forall i | 0 <= i < |r| ensures r[i] != "" && IsLower(r[i]) {
        assert r[i] == ToLower(pieces[i]) && pieces[i] != "";
      }
    }
  }

  /**
   * Appending `,piece` to the setting appends the piece trimmed and
   * lower-cased, unless it is blank once trimmed.
   */
  lemma I18nLocalesAppend(a: string, piece: string)
    requires ',' !in piece && Trim(piece) != ""
    ensures I18nLocales(Some(a + [','] + piece)) ==
      if TrimmedNonEmpty(Split(a, ',')) == [] then [ToLower(Trim(piece))]
      else I18nLocales(Some(a)) + [ToLower(Trim(piece))]
  {
    SplitAppendPiece(a, ',', piece);
    TrimmedNonEmptyAppend(Split(a, ','), [piece]);
    TrimmedNonEmptyOne(piece);
    var before := TrimmedNonEmpty(Split(a, ','));
    assert LowerEach(before + [Trim(piece)]) == LowerEach(before) + [ToLower(Trim(piece))];
  }

  /** The index of the first locale that the input starts with. */
  function FirstPrefix(locales: seq<string>, s: string): (r: Option<nat>)
    ensures r.Some? ==> r.value < |locales| && StartsWith(s, locales[r.value])
    ensures r.Some? ==> forall j :: 0 <= j < r.value ==> !StartsWith(s, locales[j])
    ensures r.None? ==> forall j :: 0 <= j < |locales| ==> !StartsWith(s, locales[j])
  {
    if locales == [] then None
    else if StartsWith(s, locales[0]) then Some(0)
    else
      match FirstPrefix(locales[1..], s)
      case None => None
      case Some(i) => Some(i + 1)
  }

  /**
   * `normalizeLocale`: the lower-cased input when it is a locale; otherwise
   * the first locale the input starts with; otherwise the first locale.
   */
  function NormalizeLocale(locales: seq<string>, input: string): (r: string)
    requires |locales| >= 1
    ensures r in locales
    ensures ToLower(input) in locales ==> r == ToLower(input)
    ensures ToLower(input) !in locales && FirstPrefix(locales, ToLower(input)).None? ==> r == locales[0]
    ensures ToLower(input) !in locales && FirstPrefix(locales, ToLower(input)).Some? ==>
      var i := FirstPrefix(locales, ToLower(input)).value;
      r == (if locales[i] != "" then locales[i] else locales[0])
  {
    var lower := ToLower(input);
    if lower in locales then lower
    else
      match FirstPrefix(locales, lower)
      case Some(i) => if locales[i] != "" then locales[i] else locales[0]
      case None => locales[0]
  }

  /** With lower-case locales, a normalised locale normalises to itself. */
  lemma NormalizeLocaleIdempotent(locales: seq<string>, input: string)
    requires |locales| >= 1
    requires forall i :: 0 <= i < |locales| ==> IsLower(locales[i])
    ensures NormalizeLocale(locales, NormalizeLocale(locales, input)) == NormalizeLocale(locales, input)
  {
    var r := NormalizeLocale(locales, input);
    LowerOfLower(r);
  }

  // ---------------------------------------------------------------------
  // Language of a request and its messages
  // ---------------------------------------------------------------------

  /**
   * The language choice: a non-empty string `lang` in the query, else one in
   * the body, else the Accept-Language header, else the empty string.
   */
  function LangChoice(queryLang: Json, bodyLang: Json, acceptLanguage: Option<string>): (r: string)
    ensures queryLang.JStr? && queryLang.s != "" ==> r == queryLang.s
    ensures !(queryLang.JStr? && queryLang.s != "") && bodyLang.JStr? && bodyLang.s != "" ==> r == bodyLang.s
    ensures !(queryLang.JStr? && queryLang.s != "") && !(bodyLang.JStr? && bodyLang.s != "") ==>
      r == (if acceptLanguage.Some? then acceptLanguage.value else "")
  {
    if queryLang.JStr? && queryLang.s != "" then queryLang.s
    else if bodyLang.JStr? && bodyLang.s != "" then bodyLang.s
    else if acceptLanguage.Some? then acceptLanguage.value
    else ""
  }

  /** `getLangFromReq`: 'en' exactly when the lower-cased choice starts with "en", else 'zh'. */
  function GetLangFromReq(queryLang: Json, bodyLang: Json, acceptLanguage: Option<string>): (r: string)
    ensures r == "en" || r == "zh"
    ensures r == "en" <==> StartsWith(ToLower(LangChoice(queryLang, bodyLang, acceptLanguage)), "en")
  {
    var lang := ToLower(LangChoice(queryLang, bodyLang, acceptLanguage));
    if StartsWith(lang, "en") then "en"
    else if StartsWith(lang, "zh") then "zh"
    else "zh"
  }

  /** An entry of the message table: the Chinese and the English text. */
  datatype Message = Message(zh: string, en: string)

  /** `i18nMessages` */
  function Messages(key: string): (m: Option<Message>)
    ensures m.Some? ==> m.value.zh != "" && m.value.en != ""
  {
    if key == "invalidParams" then Some(Message("参数错误", "Invalid parameters"))
    else if key == "contactRateLimited" then Some(Message("提交过于频繁，请稍后再试", "Too many requests, please try again later"))
    else if key == "contactSubmitSuccess" then Some(Message("提交成功", "Submitted successfully"))
    else if key == "contactSubmitFailed" then Some(Message("提交失败", "Submission failed"))
    else None
  }

  /**
   * `tMsg`: the empty string for an unknown key, otherwise the text in the
   * request's language, falling back to the Chinese text when that is empty.
   */
  function TMsg(key: string, queryLang: Json, bodyLang: Json, acceptLanguage: Option<string>): (r: string)
    ensures Messages(key).None? <==> r == ""
    ensures Messages(key).Some? && GetLangFromReq(queryLang, bodyLang, acceptLanguage) == "en" ==> r == Messages(key).value.en
    ensures Messages(key).Some? && GetLangFromReq(queryLang, bodyLang, acceptLanguage) == "zh" ==> r == Messages(key).value.zh
  {
    var lang := GetLangFromReq(queryLang, bodyLang, acceptLanguage);
    match Messages(key)
    case None => ""
    case Some(entry) =>
      var text := if lang == "en" then entry.en else entry.zh;
      if text != "" then text else if entry.zh != "" then entry.zh else ""
  }

  // ---------------------------------------------------------------------
  // Contact-form rate limiting
  // ---------------------------------------------------------------------

  const ContactRateLimitIntervalMs := 30 * 1000

  /** The time of the last accepted submission from `ip`, 0 when there is none. */
  function LastAccepted(store: map<string, int>, ip: string): int
  {
    if ip in store && store[ip] != 0 then store[ip] else 0
  }

  /** Whether a submission from `ip` at `now` is refused. */
  predicate Limited(store: map<string, int>, ip: string, now: int)
  {
    now - LastAccepted(store, ip) < ContactRateLimitIntervalMs
  }

  /** The store after one call of `isContactRateLimited`. */
  function RateStep(store: map<string, int>, ip: string, now: int): map<string, int>
  {
    if Limited(store, ip, now) then store else store[ip := now]
  }

  /** `contactRateLimitStore` together with `isContactRateLimited`; the clock is a parameter. */
  class ContactRateLimiter {
    var store: map<string, int>

    constructor ()
      ensures store == map[]
    {
      store := map[];
    }

    /**
     * `isContactRateLimited(ip)` at time `now`: refused exactly when less than
     * 30 s have passed since the last accepted submission from that address;
     * only an accepted submission is recorded, and only under its address.
     */
    method IsContactRateLimited(ip: string, now: int) returns (limited: bool)
      modifies this
      ensures limited <==> now - LastAccepted(old(store), ip) < ContactRateLimitIntervalMs
      ensures store == RateStep(old(store), ip, now)
      ensures forall other :: other != ip ==> (other in store <==> other in old(store))
      ensures forall other :: other != ip && other in store ==> store[other] == old(store)[other]
    {
      var last := if ip in store && store[ip] != 0 then store[ip] else 0;
      if now - last < ContactRateLimitIntervalMs {
        return true;
      }
      store := store[ip := now];
      return false;
    }
  }

  /** One submission to the contact form: the client address and the clock reading. */
  datatype Submission = Submission(ip: string, now: int)

  /** The store after a sequence of submissions, starting empty. */
  function StoreAfter(subs: seq<Submission>): map<string, int>
  {
    if subs == [] then map[]
    else
      var last := subs[|subs| - 1];
      RateStep(StoreAfter(subs[..|subs| - 1]), last.ip, last.now)
  }

  /** Whether the `i`-th submission was accepted. */
  predicate Accepted(subs: seq<Submission>, i: nat)
    requires i < |subs|
  {
    !Limited(StoreAfter(subs[..i]), subs[i].ip, subs[i].now)
  }

  predicate NonDecreasingClock(subs: seq<Submission>)
  {
    forall i, j :: 0 <= i < j < |subs| ==> subs[i].now <= subs[j].now
  }

  /** After an accepted submission, the stored time for its address is at least its own. */
  lemma {:induction false} StoreCoversAccepted(subs: seq<Submission>, i: nat)
    requires i < |subs| && NonDecreasingClock(subs)
    requires Accepted(subs, i)
    ensures subs[i].ip in StoreAfter(subs) && StoreAfter(subs)[subs[i].ip] >= subs[i].now
    decreases |subs|
  {
    var n := |subs| - 1;
    var init := subs[..n];
    assert subs[..n + 1] == subs;
    if i < n {
      assert init[..i] == subs[..i];
      assert NonDecreasingClock(init);
      StoreCoversAccepted(init, i);
    }
  }

  /**
   * With a clock that never runs backwards, two accepted submissions from
   * the same address are at least 30 s apart.
   */
  lemma AcceptedAreSpaced(subs: seq<Submission>, i: nat, j: nat)
    requires i < j < |subs| && NonDecreasingClock(subs)
    requires subs[i].ip == subs[j].ip
    requires Accepted(subs, i) && Accepted(subs, j)
    ensures subs[j].now - subs[i].now >= ContactRateLimitIntervalMs
  {
    var prefix := subs[..j];
    assert prefix[..i] == subs[..i];
    assert NonDecreasingClock(prefix);
    StoreCoversAccepted(prefix, i);
    var last := StoreAfter(prefix)[subs[i].ip];
    assert last >= subs[i].now;
    if last == 0 {
      assert LastAccepted(StoreAfter(prefix), subs[j].ip) == 0;
    } else {
      assert LastAccepted(StoreAfter(prefix), subs[j].ip) == last;
    }
  }

  // ---------------------------------------------------------------------
  // Certificate search and continent photos
  // ---------------------------------------------------------------------

  /** `/^No\./i`: "No." in any letter case at the start. */
  predicate HasNoDotPrefix(s: string)
  {
    |s| >= 3 && (s[0] == 'N' || s[0] == 'n') && (s[1] == 'o' || s[1] == 'O') && s[2] == '.'
  }

  /** The name and number `/certificates/search` looks up. */
  datatype SearchKey = SearchKey(name: string, certificateNo: string)

  /**
   * Both inputs are trimmed; a number that does not start with "No." (any
   * case) gets the prefix "N.".
   */
  function CertificateSearchKey(name: string, certificateNo: string): (k: SearchKey)
    ensures k.name == Trim(name)
    ensures HasNoDotPrefix(Trim(certificateNo)) ==> k.certificateNo == Trim(certificateNo)
    ensures !HasNoDotPrefix(Trim(certificateNo)) ==> k.certificateNo == "N." + Trim(certificateNo)
  {
    var t := Trim(certificateNo);
    SearchKey(Trim(name), if HasNoDotPrefix(t) then t else "N." + t)
  }

  /**
   * The prefix is added again to a number that already carries it: every
   * number that starts with "N." once trimmed, "N.12" among them, is looked
   * up with "N.N." in front.
   */
  lemma SearchPrefixesTwice(name: string, certificateNo: string)
    requires |Trim(certificateNo)| >= 2 && Trim(certificateNo)[..2] == "N."
    ensures CertificateSearchKey(name, certificateNo).certificateNo == "N." + Trim(certificateNo)
    ensures CertificateSearchKey(name, certificateNo).certificateNo[..4] == "N.N."
  {
    var t := Trim(certificateNo);
    assert t[1] == '.';
    assert ("N." + t)[2..4] == t[..2];
  }

  /** Where `/continent-photos` goes for its inputs. */
  datatype PhotosPlan =
    | BadRequest
    | ByContinent(continent: string, thenCountry: Option<string>)
    | ByCountry(country: string)

  /**
   * The input gate: 400 when both trimmed inputs are empty; a continent,
   * when given, is tried first, and the country is the fallback.
   */
  function ContinentPhotosPlan(country: Json, continent: Json): (p: PhotosPlan)
    ensures p.BadRequest? <==> SanitizeString(country) == "" && SanitizeString(continent) == ""
    ensures p.ByContinent? <==> SanitizeString(continent) != ""
    ensures p.ByContinent? ==> (p.thenCountry.Some? <==> SanitizeString(country) != "")
    ensures p.ByCountry? ==> p.country == SanitizeString(country) && p.country != ""
  {
    var c := SanitizeString(country);
    var k := SanitizeString(continent);
    if c == "" && k == "" then BadRequest
    else if k != "" then ByContinent(k, if c != "" then Some(c) else None)
    else ByCountry(c)
  }
}
