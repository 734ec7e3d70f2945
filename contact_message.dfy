/** The contact-form messages model: whitelists, truncation and the list query. */
module ContactMessageModel {
  import opened JsRuntime
  import opened Normalizers

  const MaxUserAgent := 255

  /** `normalizeInt`: the parsed integer, or null (`None`) when it is NaN. */
  function NormalizeInt(value: Json): (r: Option<int>)
    ensures r.None? <==> ParseInt(value).None?
    ensures r.Some? ==> r == ParseInt(value)
  {
    ParseInt(value)
  }

  /** The message type: 'business' only for 'business', else 'parenting'. */
  function MessageType(value: Json): (r: string)
    ensures r == "business" || r == "parenting"
    ensures r == "business" <==> value == JStr("business")
  {
    if value == JStr("business") then "business" else "parenting"
  }

  /** The status rule shared by create and updateStatus. */
  function SafeStatus(value: Json): (r: string)
    ensures r in {"processed", "spam", "new"}
    ensures r != "new" ==> value == JStr(r)
    ensures (value == JStr("processed") || value == JStr("spam")) ==> JStr(r) == value
  {
    if value == JStr("processed") || value == JStr("spam") then value.s else "new"
  }

  /** The user agent: the normalised string cut to its first 255 characters. */
  function UserAgent(value: Json): (r: string)
    ensures |r| <= MaxUserAgent
    ensures r <= SanitizeString(value)
    ensures |SanitizeString(value)| <= MaxUserAgent ==> r == SanitizeString(value)
  {
    var s := SanitizeString(value);
    if |s| <= MaxUserAgent then s else s[..MaxUserAgent]
  }

  /** A string is kept as it is, untrimmed; anything else is stored as null. */
  function VerbatimText(value: Json): (r: Option<string>)
    ensures r.Some? <==> value.JStr?
    ensures r.Some? ==> r.value == value.s
  {
    if value.JStr? then Some(value.s) else None
  }

  datatype MessageInput = MessageInput(
    msgType: Json, childAge: Json, interest: Json, company: Json, orgType: Json, phone: Json,
    intention: Json, problem: Json, ip: Json, userAgent: Json, status: Json)

  datatype MessageRecord = MessageRecord(
    msgType: string, childAge: Option<int>, interest: string, company: string, orgType: string,
    phone: string, intention: Option<string>, problem: Option<string>, ip: string,
    userAgent: string, status: string)

  /** `create`: the column values written for one submitted message. */
  function Create(data: MessageInput): (m: MessageRecord)
    ensures m.msgType == MessageType(data.msgType) && m.status == SafeStatus(data.status)
    ensures m.childAge == NormalizeInt(data.childAge)
    ensures m.interest == SanitizeString(data.interest) && m.company == SanitizeString(data.company)
    ensures m.orgType == SanitizeString(data.orgType) && m.phone == SanitizeString(data.phone)
    ensures m.ip == SanitizeString(data.ip)
    ensures m.intention == VerbatimText(data.intention) && m.problem == VerbatimText(data.problem)
    ensures m.userAgent == UserAgent(data.userAgent)
    ensures m.msgType in {"business", "parenting"}
    ensures m.status in {"processed", "spam", "new"}
    ensures |m.userAgent| <= MaxUserAgent
  {
    MessageRecord(
      MessageType(data.msgType), NormalizeInt(data.childAge), SanitizeString(data.interest),
      SanitizeString(data.company), SanitizeString(data.orgType), SanitizeString(data.phone),
      VerbatimText(data.intention), VerbatimText(data.problem), SanitizeString(data.ip),
      UserAgent(data.userAgent), SafeStatus(data.status))
  }

  /** A user agent that already fits is only trimmed. */
  lemma UserAgentOfStored(ua: string)
    requires |ua| <= MaxUserAgent
    ensures UserAgent(JStr(ua)) == Trim(ua)
  {
    TrimDropsBlank(ua);
  }

  /** The submission a stored message stands for: every column sent back as it was written. */
  function AsInput(m: MessageRecord): MessageInput
  {
    MessageInput(JStr(m.msgType), if m.childAge.Some? then JNum(m.childAge.value) else JNull,
      JStr(m.interest), JStr(m.company), JStr(m.orgType), JStr(m.phone),
      if m.intention.Some? then JStr(m.intention.value) else JNull,
      if m.problem.Some? then JStr(m.problem.value) else JNull,
      JStr(m.ip), JStr(m.userAgent), JStr(m.status))
  }

  /**
   * Submitting a stored message again writes the same columns, except that
   * a user agent cut at 255 characters is trimmed once more (the cut can
   * leave whitespace at its end).
   */
  lemma CreateResubmitted(data: MessageInput)
    ensures var m := Create(data); var again := Create(AsInput(m));
      again == m.(userAgent := again.userAgent) && again.userAgent == Trim(m.userAgent)
  {
    var m := Create(data);
    if m.childAge.Some? {
      ParseIntOfNumber(m.childAge.value);
    } else {
      ParseIntOfNull();
    }
    SanitizeStringIdempotent(data.interest);
    SanitizeStringIdempotent(data.company);
    SanitizeStringIdempotent(data.orgType);
    SanitizeStringIdempotent(data.phone);
    SanitizeStringIdempotent(data.ip);
    UserAgentOfStored(m.userAgent);
  }

  /** `updateStatus`: the status written, by the same rule as `create`. */
  function UpdateStatus(status: Json): (r: string)
    ensures r in {"processed", "spam", "new"}
    ensures r == Create(MessageInput(JUndef, JUndef, JUndef, JUndef, JUndef, JUndef, JUndef, JUndef, JUndef, JUndef, status)).status
  {
    SafeStatus(status)
  }

  datatype MessageQuery = MessageQuery(window: Window, msgType: Option<string>, status: Option<string>, keyword: Option<string>)

  /** The parsed integer, with NaN and 0 both replaced by the default. */
  function ParseIntOr(v: Json, d: int): (r: int)
    ensures r == d || r != 0
    ensures ParseInt(v).Some? && ParseInt(v).value != 0 ==> r == ParseInt(v).value
    ensures ParseInt(v).None? || ParseInt(v).value == 0 ==> r == d
  {
    match ParseInt(v)
    case Some(n) => if n != 0 then n else d
    case None => d
  }

  /**
   * `findAll`: page at least 1, limit in [1, 100] with default 10, and a
   * filter for each whitelisted type, whitelisted status and non-blank keyword.
   */
  function FindAll(page: Json, limit: Json, msgType: Json, status: Json, keyword: Json): (q: MessageQuery)
    ensures ValidWindow(q.window, MaxLimit)
    ensures q.msgType.Some? <==> msgType == JStr("parenting") || msgType == JStr("business")
    ensures q.status.Some? <==> status == JStr("new") || status == JStr("processed") || status == JStr("spam")
    ensures q.keyword.Some? <==> keyword.JStr? && Trim(keyword.s) != ""
    ensures ParseInt(limit).None? ==> q.window.limit == DefaultLimit
    ensures q.window.page == Max(1, ParseIntOr(page, 1))
    ensures q.window.limit == Min(MaxLimit, Max(1, ParseIntOr(limit, DefaultLimit)))
  {
    var p := Max(1, ParseIntOr(page, 1));
    var l := Min(MaxLimit, Max(1, ParseIntOr(limit, DefaultLimit)));
    var t := if msgType == JStr("parenting") || msgType == JStr("business") then Some(msgType.s) else None;
    var st := if status == JStr("new") || status == JStr("processed") || status == JStr("spam") then Some(status.s) else None;
    MessageQuery(PageWindow(p, l), t, st, KeywordFilter(keyword))
  }

  /**
   * The contact list pages like the content models, except for `limit=0`:
   * `parseInt(limit) || 10` turns that 0 into the default 10, where
   * `normalizeLimit` clamps it up to 1.
   */
  lemma {:induction false} FindAllWindowAgrees(page: Json, limit: Json, msgType: Json, status: Json, keyword: Json)
    ensures FindAll(page, limit, msgType, status, keyword).window.page == ContentWindow(page, limit).page
    ensures FindAll(page, limit, msgType, status, keyword).window == ContentWindow(page, limit) <==> ParseInt(limit) != Some(0)
  {
    var q := FindAll(page, limit, msgType, status, keyword);
    if ParseInt(limit) == Some(0) {
      assert q.window.limit == DefaultLimit;
      assert ContentWindow(page, limit).limit == 1;
    }
  }
}
