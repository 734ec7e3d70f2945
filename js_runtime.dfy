/**
 * The slice of JavaScript semantics the admin backend leans on: request
 * values, truthiness, `String(v)`, `Number(v)`, `Number.parseInt(v, 10)`,
 * `trim`, the `\s` character class, `toLowerCase`/`toUpperCase` and
 * `split` on a one-character separator.
 */
module JsRuntime {

  datatype Option<T> = None | Some(value: T)

  /**
   * A JavaScript value as it reaches the backend: a request body field, a
   * query parameter or a parsed JSON column. Numbers are integers; objects
   * are ordered association lists (their own enumerable properties in
   * enumeration order).
   */
  datatype Json =
    | JStr(s: string)
    | JNum(n: int)
    | JBool(b: bool)
    | JNull
    | JUndef
    | JArr(items: seq<Json>)
    | JObj(fields: seq<(string, Json)>)

  /** JavaScript truthiness (`if (v)`, `v || d`). */
  predicate Truthy(v: Json)
  {
    match v
    case JStr(s) => s != ""
    case JNum(n) => n != 0
    case JBool(b) => b
    case JNull => false
    case JUndef => false
    case JArr(_) => true
    case JObj(_) => true
  }

  /** A truthy value of type object: an array or a plain object. */
  predicate IsContainer(v: Json)
  {
    v.JArr? || v.JObj?
  }

  /** Undefined or null. */
  predicate IsNullish(v: Json)
  {
    v.JNull? || v.JUndef?
  }

  /**
   * The characters matched by `\s` and removed by `String.prototype.trim`:
   * the ECMAScript WhiteSpace and LineTerminator productions.
   */
  predicate IsWhitespace(c: char)
  {
    c == ' ' || c == '\t' || c == '\n' || c == '\r' || c == '\U{000B}' || c == '\U{000C}'
    || c == '\U{00A0}' || c == '\U{1680}' || ('\U{2000}' <= c <= '\U{200A}')
    || c == '\U{2028}' || c == '\U{2029}' || c == '\U{202F}' || c == '\U{205F}'
    || c == '\U{3000}' || c == '\U{FEFF}'
  }

  predicate NoWhitespace(s: string)
  {
    forall i :: 0 <= i < |s| ==> !IsWhitespace(s[i])
  }

  /** `s.trimStart()` */
  function TrimStart(s: string): (r: string)
    ensures |r| <= |s|
    ensures r == [] || !IsWhitespace(r[0])
  {
    if |s| > 0 && IsWhitespace(s[0]) then TrimStart(s[1..]) else s
  }

  /**
   * `trimStart` keeps a suffix and drops only whitespace. (A lemma rather
   * than a postcondition: a suffix equation on a recursive function lets
   * the solver build ever longer chains of drops.)
   */
  lemma {:induction false} TrimStartSuffix(s: string)
    ensures TrimStart(s) == s[|s| - |TrimStart(s)|..]
    ensures forall i :: 0 <= i < |s| - |TrimStart(s)| ==> IsWhitespace(s[i])
    decreases |s|
  {
    if |s| > 0 && IsWhitespace(s[0]) {
      TrimStartSuffix(s[1..]);
    }
  }

  /** `s.trimEnd()` */
  function TrimEnd(s: string): (r: string)
    ensures |r| <= |s|
    ensures r == [] || !IsWhitespace(r[|r| - 1])
  {
    if |s| > 0 && IsWhitespace(s[|s| - 1]) then TrimEnd(s[..|s| - 1]) else s
  }

  /** `trimEnd` keeps a prefix and drops only whitespace. */
  lemma {:induction false} TrimEndPrefix(s: string)
    ensures TrimEnd(s) == s[..|TrimEnd(s)|]
    ensures forall i :: |TrimEnd(s)| <= i < |s| ==> IsWhitespace(s[i])
    decreases |s|
  {
    if |s| > 0 && IsWhitespace(s[|s| - 1]) {
      TrimEndPrefix(s[..|s| - 1]);
    }
  }

  /** How many leading characters `trimStart` drops. */
  function TrimOffset(s: string): (k: nat)
    ensures k <= |s|
  {
    |s| - |TrimStart(s)|
  }

  /** `s.trim()`: the infix of `s` left after dropping whitespace at both ends. */
  function Trim(s: string): (r: string)
    ensures TrimOffset(s) + |r| <= |s|
    ensures r == s[TrimOffset(s)..TrimOffset(s) + |r|]
    ensures r == [] || (!IsWhitespace(r[0]) && !IsWhitespace(r[|r| - 1]))
  {
    var t := TrimStart(s);
    var r := TrimEnd(t);
    TrimStartSuffix(s);
    TrimEndPrefix(t);
    assert r == s[|s| - |t|..][..|r|];
    r
  }

  /** What `trim` drops at either end is whitespace. */
  lemma TrimDropsBlank(s: string)
    ensures forall i :: 0 <= i < TrimOffset(s) ==> IsWhitespace(s[i])
    ensures forall i :: TrimOffset(s) + |Trim(s)| <= i < |s| ==> IsWhitespace(s[i])
  {
    var t := TrimStart(s);
    TrimStartSuffix(s);
    TrimEndPrefix(t);
    forall i | TrimOffset(s) + |Trim(s)| <= i < |s| ensures IsWhitespace(s[i]) {
      assert s[i] == t[i - TrimOffset(s)];
    }
  }

  /** No whitespace at either end: what `trim` leaves. */
  predicate Trimmed(s: string)
  {
    s == [] || (!IsWhitespace(s[0]) && !IsWhitespace(s[|s| - 1]))
  }

  /** Trimming text with no whitespace at its ends changes nothing. */
  lemma TrimOfTrimmed(s: string)
    requires Trimmed(s)
    ensures Trim(s) == s
  {
  }

  /** Trimming twice is trimming once. */
  lemma TrimIdempotent(s: string)
    ensures Trim(Trim(s)) == Trim(s)
  {
    TrimOfTrimmed(Trim(s));
  }

  /**
   * Every whitespace character removed, by a global replacement of whitespace
   * runs. Its properties are lemmas so that a key mentioned in a contract
   * does not drag them along.
   */
  function RemoveWhitespace(s: string): string
  {
    if s == [] then []
    else if IsWhitespace(s[|s| - 1]) then RemoveWhitespace(s[..|s| - 1])
    else RemoveWhitespace(s[..|s| - 1]) + [s[|s| - 1]]
  }

  /** What is left has no whitespace and is no longer than the input. */
  lemma {:induction false} RemoveWhitespaceClean(s: string)
    ensures |RemoveWhitespace(s)| <= |s|
    ensures NoWhitespace(RemoveWhitespace(s))
    decreases |s|
  {
    if s != [] {
      RemoveWhitespaceClean(s[..|s| - 1]);
    }
  }

  /** One character: dropped exactly when it is whitespace. */
  lemma RemoveWhitespaceChar(c: char)
    ensures RemoveWhitespace([c]) == if IsWhitespace(c) then [] else [c]
  {
    assert [c][..0] == [];
  }

  lemma {:induction false} RemoveWhitespaceAppend(a: string, b: string)
    ensures RemoveWhitespace(a + b) == RemoveWhitespace(a) + RemoveWhitespace(b)
    decreases |b|
  {
    if b == [] {
      assert a + b == a;
    } else {
      var b' := b[..|b| - 1];
      assert (a + b)[..|a + b| - 1] == a + b';
      RemoveWhitespaceAppend(a, b');
    }
  }

  lemma {:induction false} RemoveWhitespaceOfBlank(s: string)
    requires forall i :: 0 <= i < |s| ==> IsWhitespace(s[i])
    ensures RemoveWhitespace(s) == []
    decreases |s|
  {
    if s != [] {
      RemoveWhitespaceOfBlank(s[..|s| - 1]);
    }
  }

  lemma {:induction false} RemoveWhitespaceOfClean(s: string)
    requires NoWhitespace(s)
    ensures RemoveWhitespace(s) == s
    decreases |s|
  {
    if s != [] {
      RemoveWhitespaceOfClean(s[..|s| - 1]);
      assert s[..|s| - 1] + [s[|s| - 1]] == s;
    }
  }

  lemma RemoveWhitespaceSurrounded(pre: string, mid: string, post: string)
    requires forall i :: 0 <= i < |pre| ==> IsWhitespace(pre[i])
    requires forall i :: 0 <= i < |post| ==> IsWhitespace(post[i])
    ensures RemoveWhitespace(pre + mid + post) == RemoveWhitespace(mid)
  {
    RemoveWhitespaceOfBlank(pre);
    RemoveWhitespaceOfBlank(post);
    RemoveWhitespaceAppend(pre + mid, post);
    RemoveWhitespaceAppend(pre, mid);
    var x, y, z := RemoveWhitespace(pre), RemoveWhitespace(mid), RemoveWhitespace(post);
    assert x == [] && z == [];
    assert RemoveWhitespace(pre + mid) == y;
  }

  lemma BlankEnds(s: string, a: nat, b: nat)
    requires a <= b <= |s|
    requires forall i :: 0 <= i < a ==> IsWhitespace(s[i])
    requires forall i :: b <= i < |s| ==> IsWhitespace(s[i])
    ensures forall i :: 0 <= i < |s[..a]| ==> IsWhitespace(s[..a][i])
    ensures forall i :: 0 <= i < |s[b..]| ==> IsWhitespace(s[b..][i])
    ensures s == s[..a] + s[a..b] + s[b..]
  {
    forall i | 0 <= i < |s[b..]| ensures IsWhitespace(s[b..][i]) {
      assert s[b..][i] == s[b + i];
    }
  }

  /** Trimming first changes nothing once all whitespace is removed anyway. */
  lemma RemoveWhitespaceOfTrim(s: string)
    ensures RemoveWhitespace(Trim(s)) == RemoveWhitespace(s)
  {
    var r := Trim(s);
    var a := TrimOffset(s);
    TrimDropsBlank(s);
    BlankEnds(s, a, a + |r|);
    RemoveWhitespaceSurrounded(s[..a], r, s[a + |r|..]);
  }

  function LowerChar(c: char): char
  {
    if 'A' <= c <= 'Z' then (c as int + 32) as char else c
  }

  function UpperChar(c: char): char
  {
    if 'a' <= c <= 'z' then (c as int - 32) as char else c
  }

  /** `s.toLowerCase()` over the ASCII letters. */
  function ToLower(s: string): (r: string)
    ensures |r| == |s|
    ensures forall i :: 0 <= i < |s| ==> !('A' <= r[i] <= 'Z')
  {
    seq(|s|, i requires 0 <= i < |s| => LowerChar(s[i]))
  }

  /** `s.toUpperCase()` over the ASCII letters. */
  function ToUpper(s: string): (r: string)
    ensures |r| == |s|
    ensures forall i :: 0 <= i < |s| ==> !('a' <= r[i] <= 'z')
  {
    seq(|s|, i requires 0 <= i < |s| => UpperChar(s[i]))
  }

  /** No upper-case ASCII letter. */
  predicate IsLower(s: string)
  {
    forall i :: 0 <= i < |s| ==> !('A' <= s[i] <= 'Z')
  }

  lemma LowerOfLower(s: string)
    requires IsLower(s)
    ensures ToLower(s) == s
  {
  }

  lemma ToLowerIdempotent(s: string)
    ensures ToLower(ToLower(s)) == ToLower(s)
  {
  }

  /** `s.startsWith(p)` */
  predicate StartsWith(s: string, p: string)
  {
    |p| <= |s| && s[..|p|] == p
  }

  /**
   * `s.split(sep)` for a one-character separator, built from the right so
   * that appending `sep + k` appends the piece `k`.
   */
  function Split(s: string, sep: char): (r: seq<string>)
    ensures |r| >= 1
    ensures forall i :: 0 <= i < |r| ==> sep !in r[i]
    decreases |s|
  {
    if s == [] then [""]
    else if s[|s| - 1] == sep then Split(s[..|s| - 1], sep) + [""]
    else
      var p := Split(s[..|s| - 1], sep);
      p[..|p| - 1] + [p[|p| - 1] + [s[|s| - 1]]]
  }

  /** Every piece trimmed, and the pieces left empty dropped. */
  function TrimmedNonEmpty(pieces: seq<string>): (r: seq<string>)
    ensures |r| <= |pieces|
  {
    if pieces == [] then []
    else
      var rest := TrimmedNonEmpty(pieces[..|pieces| - 1]);
      var t := Trim(pieces[|pieces| - 1]);
      if t == "" then rest else rest + [t]
  }

  /**
   * `TrimmedNonEmpty` works piece by piece: the result for a concatenation
   * is the concatenation of the results, and one piece gives its trimmed
   * form or nothing. Together these fix the result for every input: the
   * trimmed non-blank pieces, in their order.
   */
  lemma {:induction false} TrimmedNonEmptyAppend(a: seq<string>, b: seq<string>)
    ensures TrimmedNonEmpty(a + b) == TrimmedNonEmpty(a) + TrimmedNonEmpty(b)
    decreases |b|
  {
    if b == [] {
      assert a + b == a;
    } else {
      var b' := b[..|b| - 1];
      assert (a + b)[..|a + b| - 1] == a + b';
      assert (a + b)[|a + b| - 1] == b[|b| - 1];
      TrimmedNonEmptyAppend(a, b');
    }
  }

  /** What is left is trimmed and non-empty. */
  lemma {:induction false} TrimmedNonEmptyClean(pieces: seq<string>)
    ensures forall i :: 0 <= i < |TrimmedNonEmpty(pieces)| ==>
      TrimmedNonEmpty(pieces)[i] != "" && Trimmed(TrimmedNonEmpty(pieces)[i])
    decreases |pieces|
  {
    if pieces != [] {
      TrimmedNonEmptyClean(pieces[..|pieces| - 1]);
    }
  }

  lemma TrimmedNonEmptyOne(p: string)
    ensures TrimmedNonEmpty([p]) == if Trim(p) == "" then [] else [Trim(p)]
  {
    assert [p][..0] == [];
  }

  /** Pieces that are already trimmed and non-empty come back unchanged. */
  lemma {:induction false} TrimmedNonEmptyOfClean(pieces: seq<string>)
    requires forall i :: 0 <= i < |pieces| ==> pieces[i] != "" && Trimmed(pieces[i])
    ensures TrimmedNonEmpty(pieces) == pieces
    decreases |pieces|
  {
    if pieces != [] {
      var init := pieces[..|pieces| - 1];
      TrimmedNonEmptyOfClean(init);
      TrimOfTrimmed(pieces[|pieces| - 1]);
      assert init + [pieces[|pieces| - 1]] == pieces;
    }
  }

  lemma {:induction false} SplitNoSeparator(s: string, sep: char)
    requires sep !in s
    ensures Split(s, sep) == [s]
    decreases |s|
  {
    if s != [] {
      SplitNoSeparator(s[..|s| - 1], sep);
      assert s[..|s| - 1] + [s[|s| - 1]] == s;
    }
  }

  lemma {:induction false} SplitAppendPiece(a: string, sep: char, k: string)
    requires sep !in k
    ensures Split(a + [sep] + k, sep) == Split(a, sep) + [k]
    decreases |k|
  {
    if k == [] {
      assert (a + [sep] + k)[..|a + [sep] + k| - 1] == a;
    } else {
      var k' := k[..|k| - 1];
      assert (a + [sep] + k)[..|a + [sep] + k| - 1] == a + [sep] + k';
      SplitAppendPiece(a, sep, k');
      assert k' + [k[|k| - 1]] == k;
    }
  }

  /**
   * The first piece of `Split(s, sep)` is the text before the first
   * separator, and it is the only piece exactly when `s` has no separator.
   */
  lemma {:induction false} SplitFirst(s: string, sep: char)
    ensures var p := Split(s, sep);
      p[0] <= s && sep !in p[0]
      && (|p| == 1 <==> sep !in s)
      && (|p| == 1 ==> p[0] == s)
      && (|p| > 1 ==> |p[0]| < |s| && s[|p[0]|] == sep)
    decreases |s|
  {
    if s != [] {
      var s', c := s[..|s| - 1], s[|s| - 1];
      assert s == s' + [c];
      SplitFirst(s', sep);
      var q := Split(s', sep);
      if c == sep {
        assert Split(s, sep) == q + [""];
        assert sep in s;
        if |q| == 1 {
          assert q[0] == s';
        } else {
          assert s'[|q[0]|] == sep;
        }
      } else {
        assert Split(s, sep) == q[..|q| - 1] + [q[|q| - 1] + [c]];
        if |q| == 1 {
          assert q[0] == s';
          assert Split(s, sep) == [s];
        } else {
          assert Split(s, sep)[0] == q[0];
          assert s'[|q[0]|] == sep;
          assert sep in s;
        }
      }
    }
  }

  /** `String(n)` for a natural number. */
  function NatToDecimal(n: nat): (r: string)
    ensures |r| >= 1
  {
    if n < 10 then [('0' as int + n) as char]
    else NatToDecimal(n / 10) + [('0' as int + n % 10) as char]
  }

  /** `String(n)` for an integer. */
  function IntToDecimal(n: int): string
  {
    if n < 0 then "-" + NatToDecimal(-n) else NatToDecimal(n)
  }

  /** One decimal digit or more, and nothing else. */
  predicate IsDigits(s: string)
  {
    |s| > 0 && forall i :: 0 <= i < |s| ==> '0' <= s[i] <= '9'
  }

  /** The value of a run of decimal digits (`Number(s)` when `IsDigits(s)`). */
  function DigitsValue(s: string): nat
    requires forall i :: 0 <= i < |s| ==> '0' <= s[i] <= '9'
  {
    if s == [] then 0
    else DigitsValue(s[..|s| - 1]) * 10 + (s[|s| - 1] as int - '0' as int)
  }

  /** Printing an index in decimal and reading it back gives the index. */
  lemma {:induction false} DecimalRoundTrip(n: nat)
    ensures IsDigits(NatToDecimal(n))
    ensures DigitsValue(NatToDecimal(n)) == n
  {
    if n >= 10 {
      DecimalRoundTrip(n / 10);
      var s := NatToDecimal(n);
      assert s[..|s| - 1] == NatToDecimal(n / 10);
    }
  }

  const TrueText := "true"
  const FalseText := "false"
  const NullText := "null"
  const UndefinedText := "undefined"
  const ObjectText := "[object Object]"

  /** `String(v)`; array elements that are null or undefined print as "". */
  function ToStr(v: Json): string
    decreases v, 1, 0
  {
    match v
    case JStr(s) => s
    case JNum(n) => IntToDecimal(n)
    case JBool(b) => if b then TrueText else FalseText
    case JNull => NullText
    case JUndef => UndefinedText
    case JArr(items) => JoinItems(v, |items|)
    case JObj(_) => ObjectText
  }

  /** The first `n` items printed and joined with commas. */
  function JoinItems(v: Json, n: nat): string
    requires v.JArr? && n <= |v.items|
    decreases v, 0, n
  {
    if n == 0 then ""
    else
      var x := v.items[n - 1];
      assert x in v.items;
      var t := if IsNullish(x) then "" else ToStr(x);
      if n == 1 then t else JoinItems(v, n - 1) + "," + t
  }

  /** The text a leaf is stored as: empty for undefined and null, else the value printed. */
  function LeafText(v: Json): string
  {
    if IsNullish(v) then "" else ToStr(v)
  }

  /** The longest prefix of `s` made of decimal digits. */
  function DigitPrefix(s: string): (r: string)
    ensures r <= s
    ensures forall i :: 0 <= i < |r| ==> '0' <= r[i] <= '9'
    ensures |r| == |s| || !('0' <= s[|r|] <= '9')
  {
    if s != [] && '0' <= s[0] <= '9' then [s[0]] + DigitPrefix(s[1..]) else []
  }

  /**
   * `Number.parseInt(s, 10)` on a string: leading whitespace, an optional
   * sign, then the longest run of digits; `None` is `NaN`.
   */
  function ParseIntStr(s: string): (r: Option<int>)
    ensures r.None? <==> DigitPrefix(SignFree(TrimStart(s))) == []
  {
    var t := TrimStart(s);
    var neg := |t| > 0 && t[0] == '-';
    var d := DigitPrefix(SignFree(t));
    if d == [] then None
    else
      var n: int := DigitsValue(d);
      Some(if neg then -n else n)
  }

  function SignFree(t: string): string
  {
    if |t| > 0 && (t[0] == '-' || t[0] == '+') then t[1..] else t
  }

  /** A run made only of digits is its own digit prefix. */
  lemma {:induction false} DigitPrefixOfDigits(s: string)
    requires forall i :: 0 <= i < |s| ==> '0' <= s[i] <= '9'
    ensures DigitPrefix(s) == s
  {
    if s != [] {
      DigitPrefixOfDigits(s[1..]);
    }
  }

  /** `parseInt(null)` is NaN: "null" has no digits. */
  lemma ParseIntOfNull()
    ensures ParseInt(JNull) == None
  {
    assert TrimStart(NullText) == NullText;
    assert DigitPrefix(NullText) == [];
  }

  /** A printed integer starts with no whitespace, and its digits follow the sign. */
  lemma DecimalShape(n: int)
    ensures TrimStart(IntToDecimal(n)) == IntToDecimal(n)
    ensures SignFree(IntToDecimal(n)) == NatToDecimal(if n < 0 then -n else n)
    ensures |IntToDecimal(n)| > 0 && (IntToDecimal(n)[0] == '-' <==> n < 0)
  {
    var d := NatToDecimal(if n < 0 then -n else n);
    DecimalRoundTrip(if n < 0 then -n else n);
    assert '0' <= d[0] <= '9';
  }

  /** `parseInt` reads back an integer printed by `String`. */
  lemma ParseIntOfNumber(n: int)
    ensures ParseInt(JNum(n)) == Some(n)
  {
    var m: nat := if n < 0 then -n else n;
    DecimalRoundTrip(m);
    DigitPrefixOfDigits(NatToDecimal(m));
    DecimalShape(n);
  }

  /** `Number.parseInt(v, 10)`: the argument is converted with `String` first. */
  function ParseInt(v: Json): Option<int>
  {
    ParseIntStr(ToStr(v))
  }

  /** The radix a `0x`, `0o` or `0b` prefix selects (either case), 0 for any other letter. */
  function PrefixRadix(c: char): nat
  {
    if c == 'x' || c == 'X' then 16
    else if c == 'o' || c == 'O' then 8
    else if c == 'b' || c == 'B' then 2
    else 0
  }

  /** The value of a digit or hexadecimal letter, 16 for any other character. */
  function DigitOf(c: char): nat
  {
    if '0' <= c <= '9' then c as int - '0' as int
    else if 'a' <= c <= 'f' then c as int - 'a' as int + 10
    else if 'A' <= c <= 'F' then c as int - 'A' as int + 10
    else 16
  }

  /** One digit or more, each below `radix`. */
  predicate IsRadixDigits(s: string, radix: nat)
  {
    |s| > 0 && forall i :: 0 <= i < |s| ==> DigitOf(s[i]) < radix
  }

  /** The value of a run of digits in base `radix`. */
  function RadixValue(s: string, radix: nat): nat
  {
    if s == [] then 0
    else RadixValue(s[..|s| - 1], radix) * radix + DigitOf(s[|s| - 1])
  }

  /**
   * `Number(s)` for a string: blank is 0; `0x`, `0o` or `0b` followed by
   * digits of that base is their value, with no sign allowed; a signed run
   * of decimal digits is its value; `None` stands for `NaN` and for every
   * numeral with a decimal point, an exponent or `Infinity`.
   */
  function StrToNumber(s: string): (r: Option<int>)
    ensures Trim(s) == "" ==> r == Some(0)
  {
    NumeralValue(Trim(s))
  }

  /** `Number` on text already trimmed. */
  function NumeralValue(t: string): Option<int>
  {
    if t == "" then Some(0)
    else if |t| > 2 && t[0] == '0' && PrefixRadix(t[1]) != 0 then
      var radix := PrefixRadix(t[1]);
      if IsRadixDigits(t[2..], radix) then Some(RadixValue(t[2..], radix)) else None
    else
      var body := SignFree(t);
      if IsDigits(body) then
        var n: int := DigitsValue(body);
        Some(if t[0] == '-' then -n else n)
      else None
  }

  /** Decimal digits read in base 10 give their decimal value. */
  lemma {:induction false} RadixTenIsDecimal(s: string)
    requires forall i :: 0 <= i < |s| ==> '0' <= s[i] <= '9'
    ensures RadixValue(s, 10) == DigitsValue(s)
  {
    if s != [] {
      RadixTenIsDecimal(s[..|s| - 1]);
    }
  }

  /** A printed integer has no whitespace at either end. */
  lemma DecimalTrimmed(n: int)
    ensures Trimmed(IntToDecimal(n))
  {
    var m: nat := if n < 0 then -n else n;
    DecimalRoundTrip(m);
    DecimalShape(n);
    var t := IntToDecimal(n);
    var d := NatToDecimal(m);
    assert t[|t| - 1] == d[|d| - 1];
  }

  /** The numeral of a printed integer reads back as that integer. */
  lemma NumeralOfDecimal(n: int)
    ensures NumeralValue(IntToDecimal(n)) == Some(n)
  {
    var m: nat := if n < 0 then -n else n;
    DecimalRoundTrip(m);
    DecimalShape(n);
    var t := IntToDecimal(n);
    if |t| > 1 {
      assert '0' <= t[1] <= '9';
    }
  }

  /** `Number(String(n)) === n` for every integer. */
  lemma StrToNumberOfDecimal(n: int)
    ensures StrToNumber(IntToDecimal(n)) == Some(n)
  {
    DecimalTrimmed(n);
    TrimOfTrimmed(IntToDecimal(n));
    NumeralOfDecimal(n);
  }

  /** A radix numeral: `0`, a prefix letter, then one digit or more of that base. */
  predicate IsRadixNumeral(t: string)
  {
    |t| > 2 && t[0] == '0' && PrefixRadix(t[1]) != 0 && IsRadixDigits(t[2..], PrefixRadix(t[1]))
  }

  /** A radix numeral, signed or not, has no whitespace at either end. */
  lemma RadixNumeralTrimmed(t: string)
    requires IsRadixNumeral(t)
    ensures Trimmed(t) && Trimmed(['-'] + t) && Trimmed(['+'] + t)
  {
    var k := |t| - 1;
    assert t[k] == t[2..][k - 2];
    assert DigitOf(t[k]) < 16;
  }

  /**
   * `0x`, `0o` or `0b` and digits of that base read as their value; the
   * same numeral with a sign in front is `NaN`.
   */
  lemma StrToNumberPrefixed(t: string)
    requires IsRadixNumeral(t)
    ensures StrToNumber(t) == Some(RadixValue(t[2..], PrefixRadix(t[1])))
    ensures StrToNumber(['-'] + t) == None && StrToNumber(['+'] + t) == None
  {
    RadixNumeralTrimmed(t);
    TrimOfTrimmed(t);
    TrimOfTrimmed(['-'] + t);
    TrimOfTrimmed(['+'] + t);
    assert SignFree(['-'] + t) == t && SignFree(['+'] + t) == t;
    assert !IsDigits(t) by { assert PrefixRadix(t[1]) != 0; }
  }

  /** `Number(v)` */
  function ToNumber(v: Json): Option<int>
  {
    match v
    case JNum(n) => Some(n)
    case JBool(b) => Some(if b then 1 else 0)
    case JNull => Some(0)
    case JUndef => None
    case JStr(s) => StrToNumber(s)
    case JArr(_) => StrToNumber(ToStr(v))
    case JObj(_) => None
  }

  /** `Number(v) || d`: `NaN` and 0 are both replaced by the default. */
  function NumberOr(v: Json, d: int): (r: int)
    ensures r == d || r != 0
  {
    match ToNumber(v)
    case Some(n) => if n != 0 then n else d
    case None => d
  }

  /** `o[key]`: the last field of that name in an object, `undefined` otherwise. */
  function Prop(o: Json, key: string): (r: Json)
    ensures !o.JObj? ==> r == JUndef
    ensures o.JObj? && (forall i :: 0 <= i < |o.fields| ==> o.fields[i].0 != key) ==> r == JUndef
    decreases if o.JObj? then |o.fields| else 0
  {
    if !o.JObj? || o.fields == [] then JUndef
    else if o.fields[|o.fields| - 1].0 == key then o.fields[|o.fields| - 1].1
    else Prop(JObj(o.fields[..|o.fields| - 1]), key)
  }

  /** `a || b` */
  function OrValue(a: Json, b: Json): (r: Json)
    ensures Truthy(a) ==> r == a
    ensures !Truthy(a) ==> r == b
  {
    if Truthy(a) then a else b
  }

  function Max(a: int, b: int): int
  {
    if a >= b then a else b
  }

  function Min(a: int, b: int): int
  {
    if a <= b then a else b
  }
}
