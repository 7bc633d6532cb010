/** JSON text as `JSON.stringify` writes it and `JSON.parse` reads it, for the values the
    app keeps in local storage: null, booleans, integers, strings, arrays and objects. */
module Json {
  import opened Maybe
  import opened JsText

  datatype Json =
    | JNull
    | JBool(b: bool)
    | JNum(n: int)
    | JStr(s: string)
    | JArr(items: seq<Json>)
    | JObj(fields: seq<Field>)

  /** One property of an object, in the order `JSON.stringify` writes it. */
  datatype Field = Field(key: string, value: Json)

  // ------------------------------------------------------------------
  // Writing: JSON.stringify (no indentation)
  // ------------------------------------------------------------------

  /** The parts separated by commas. */
  function Join(parts: seq<string>): string {
    if |parts| == 0 then ""
    else if |parts| == 1 then parts[0]
    else parts[0] + "," + Join(parts[1..])
  }

  /** A lower-case hexadecimal digit, as in the `\u00XX` escapes of `JSON.stringify`. */
  function HexDigit(d: nat): (c: char)
    requires d < 16
    ensures HexValue(c) == Some(d)
  {
    if d < 10 then DigitChar(d) else (87 + d) as char
  }

  /** How `JSON.stringify` writes one character inside a string literal: the two-character
      escapes for quote, backslash, backspace, tab, newline, form feed and carriage return,
      `\u00XX` for the other control characters, and every other character as itself. */
  function EscapeChar(c: char): string {
    if c == '"' then "\\\""
    else if c == '\\' then "\\\\"
    else if c == 8 as char then "\\b"
    else if c == '\t' then "\\t"
    else if c == '\n' then "\\n"
    else if c == 12 as char then "\\f"
    else if c == '\r' then "\\r"
    else if (c as int) < 0x20 then "\\u00" + [HexDigit((c as int) / 16), HexDigit((c as int) % 16)]
    else [c]
  }

  function EscapeBody(s: string): string {
    if |s| == 0 then "" else EscapeChar(s[0]) + EscapeBody(s[1..])
  }

  /** A string literal. */
  function Quote(s: string): string {
    "\"" + EscapeBody(s) + "\""
  }

  /** The characters a JSON text can start with. */
  predicate StartsValue(c: char) {
    c == 'n' || c == 't' || c == 'f' || c == '"' || c == '[' || c == '{' || c == '-' || IsDigit(c)
  }

  /** `JSON.stringify(j)`. */
  function Stringify(j: Json): (r: string)
    ensures |r| > 0 && StartsValue(r[0])
  {
    match j
    case JNull => "null"
    case JBool(b) => if b then "true" else "false"
    case JNum(n) => DecimalString(n)
    case JStr(s) => Quote(s)
    case JArr(items) =>
      "[" + Join(seq(|items|, i requires 0 <= i < |items| => Stringify(items[i]))) + "]"
    case JObj(fields) =>
      "{" + Join(seq(|fields|, i requires 0 <= i < |fields| =>
                       Quote(fields[i].key) + ":" + Stringify(fields[i].value))) + "}"
  }

  function StringifyAll(items: seq<Json>): seq<string> {
    seq(|items|, i requires 0 <= i < |items| => Stringify(items[i]))
  }

  function MemberText(f: Field): string {
    Quote(f.key) + ":" + Stringify(f.value)
  }

  function MembersText(fields: seq<Field>): seq<string> {
    seq(|fields|, i requires 0 <= i < |fields| => MemberText(fields[i]))
  }

  // ------------------------------------------------------------------
  // Reading: JSON.parse
  // ------------------------------------------------------------------

  /** The white space JSON allows between tokens. */
  predicate IsJsonSpace(c: char) {
    c == ' ' || c == '\t' || c == '\n' || c == '\r'
  }

  function SkipSpace(s: string): (r: string)
    ensures |r| <= |s|
    ensures |r| == 0 || !IsJsonSpace(r[0])
  {
    if |s| > 0 && IsJsonSpace(s[0]) then SkipSpace(s[1..]) else s
  }

  function HexValue(c: char): Option<nat> {
    if '0' <= c <= '9' then Some(c as int - 48)
    else if 'a' <= c <= 'f' then Some(c as int - 87)
    else if 'A' <= c <= 'F' then Some(c as int - 55)
    else None
  }

  /** Four hexadecimal digits, either case. */
  function ParseHex4(h: string): (r: Option<nat>)
    requires |h| == 4
    ensures r.Some? ==> r.value < 0x10000
  {
    match (HexValue(h[0]), HexValue(h[1]), HexValue(h[2]), HexValue(h[3]))
    case (Some(a), Some(b), Some(c), Some(d)) =>
      if a < 16 && b < 16 && c < 16 && d < 16 then Some(((a * 16 + b) * 16 + c) * 16 + d) else None
    case _ => None
  }

  /** After a backslash inside a string literal: the escaped character and what follows.
      An escape of a UTF-16 surrogate is refused (see the README). */
  function ParseEscape(s: string): (r: Option<(char, string)>)
    ensures r.Some? ==> |r.value.1| < |s|
  {
    if |s| == 0 then None
    else if s[0] == '"' then Some(('"', s[1..]))
    else if s[0] == '\\' then Some(('\\', s[1..]))
    else if s[0] == '/' then Some(('/', s[1..]))
    else if s[0] == 'b' then Some((8 as char, s[1..]))
    else if s[0] == 'f' then Some((12 as char, s[1..]))
    else if s[0] == 'n' then Some(('\n', s[1..]))
    else if s[0] == 'r' then Some(('\r', s[1..]))
    else if s[0] == 't' then Some(('\t', s[1..]))
    else if s[0] == 'u' && |s| >= 5 then
      match ParseHex4(s[1..5])
      case Some(code) => if 0xD800 <= code <= 0xDFFF then None else Some((code as char, s[5..]))
      case None => None
    else None
  }

  /** The characters of a string literal after its opening quote, up to and without the
      closing quote, and the input after that quote. Raw control characters are refused. */
  function ParseChars(s: string): (r: Option<(string, string)>)
    ensures r.Some? ==> |r.value.1| < |s|
    decreases |s|
  {
    if |s| == 0 then None
    else if s[0] == '"' then Some(("", s[1..]))
    else if s[0] == '\\' then
      match ParseEscape(s[1..])
      case None => None
      case Some((c, rest)) => Prepend(c, ParseChars(rest))
    else if (s[0] as int) < 0x20 then None
    else Prepend(s[0], ParseChars(s[1..]))
  }

  function Prepend(c: char, r: Option<(string, string)>): Option<(string, string)> {
    match r
    case None => None
    case Some((str, rest)) => Some(([c] + str, rest))
  }

  /** An integer: an optional minus, then `0` or digits without a leading zero. A number
      with a fraction or an exponent is refused (see the README). */
  function ParseNumber(s: string): (r: Option<(Json, string)>)
    requires |s| > 0
    ensures r.Some? ==> |r.value.1| < |s|
  {
    if s[0] == '-' then
      match ParseNat(s[1..])
      case Some((v, rest)) => Some((JNum(-v), rest))
      case None => None
    else
      match ParseNat(s)
      case Some((v, rest)) => Some((JNum(v), rest))
      case None => None
  }

  function ParseNat(u: string): (r: Option<(int, string)>)
    ensures r.Some? ==> |r.value.1| < |u|
  {
    var ds := DigitPrefix(u);
    var rest := u[|ds|..];
    if |ds| == 0 || (ds[0] == '0' && |ds| > 1) then None
    else if |rest| > 0 && (rest[0] == '.' || rest[0] == 'e' || rest[0] == 'E') then None
    else Some((DigitsValue(ds), rest))
  }

  function ParseWord(s: string, word: string, v: Json): (r: Option<(Json, string)>)
    requires |word| > 0
    ensures r.Some? ==> |r.value.1| < |s|
  {
    if |word| <= |s| && s[..|word|] == word then Some((v, s[|word|..])) else None
  }

  /** One JSON value after optional white space, and the input after it. */
  function ParseValue(s: string): (r: Option<(Json, string)>)
    ensures r.Some? ==> |r.value.1| < |s|
    decreases |s|, 0
  {
    var t := SkipSpace(s);
    if |t| == 0 then None
    else if t[0] == 'n' then ParseWord(t, "null", JNull)
    else if t[0] == 't' then ParseWord(t, "true", JBool(true))
    else if t[0] == 'f' then ParseWord(t, "false", JBool(false))
    else if t[0] == '"' then
      match ParseChars(t[1..])
      case Some((str, rest)) => Some((JStr(str), rest))
      case None => None
    else if t[0] == '[' then ParseArray(t[1..])
    else if t[0] == '{' then ParseObject(t[1..])
    else if t[0] == '-' || IsDigit(t[0]) then ParseNumber(t)
    else None
  }

  /** The rest of an array after its `[`. */
  function ParseArray(s: string): (r: Option<(Json, string)>)
    ensures r.Some? ==> |r.value.1| < |s|
    decreases |s|, 2
  {
    var t := SkipSpace(s);
    if |t| > 0 && t[0] == ']' then Some((JArr([]), t[1..]))
    else
      match ParseElements(s)
      case Some((items, rest)) => Some((JArr(items), rest))
      case None => None
  }

  /** One or more comma-separated values and the closing `]`. */
  function ParseElements(s: string): (r: Option<(seq<Json>, string)>)
    ensures r.Some? ==> |r.value.1| < |s|
    decreases |s|, 1
  {
    match ParseValue(s)
    case None => None
    case Some((v, r1)) =>
      var r2 := SkipSpace(r1);
      if |r2| == 0 then None
      else if r2[0] == ']' then Some(([v], r2[1..]))
      else if r2[0] == ',' then
        match ParseElements(r2[1..])
        case Some((vs, rest)) => Some(([v] + vs, rest))
        case None => None
      else None
  }

  /** The rest of an object after its `{`. */
  function ParseObject(s: string): (r: Option<(Json, string)>)
    ensures r.Some? ==> |r.value.1| < |s|
    decreases |s|, 3
  {
    var t := SkipSpace(s);
    if |t| > 0 && t[0] == '}' then Some((JObj([]), t[1..]))
    else
      match ParseMembers(s)
      case Some((fields, rest)) => Some((JObj(fields), rest))
      case None => None
  }

  /** One or more comma-separated members and the closing `}`. */
  function ParseMembers(s: string): (r: Option<(seq<Field>, string)>)
    ensures r.Some? ==> |r.value.1| < |s|
    decreases |s|, 2
  {
    MoreMembers(ParseMember(s), |s|)
  }

  /** What follows the first member `first` read from an input of length `n`: the
      closing `}`, or a comma and more members. */
  function MoreMembers(first: Option<(Field, string)>, n: nat): (r: Option<(seq<Field>, string)>)
    requires first.Some? ==> |first.value.1| < n
    ensures r.Some? ==> |r.value.1| < n
    decreases n, 1
  {
    match first
    case None => None
    case Some((f, r1)) =>
      var r2 := SkipSpace(r1);
      if |r2| == 0 then None
      else if r2[0] == '}' then Some(([f], r2[1..]))
      else if r2[0] == ',' then
        match ParseMembers(r2[1..])
        case Some((fs, rest)) => Some(([f] + fs, rest))
        case None => None
      else None
  }

  /** One `"key": value` member. */
  function ParseMember(s: string): (r: Option<(Field, string)>)
    ensures r.Some? ==> |r.value.1| < |s|
    decreases |s|, 1
  {
    var t := SkipSpace(s);
    if |t| == 0 || t[0] != '"' then None
    else
      match ParseChars(t[1..])
      case None => None
      case Some((key, r1)) =>
        var r2 := SkipSpace(r1);
        if |r2| == 0 || r2[0] != ':' then None
        else
          match ParseValue(r2[1..])
          case None => None
          case Some((v, r3)) => Some((Field(key, v), r3))
  }

  /** `JSON.parse(s)`; `None` where it throws a SyntaxError. */
  function Parse(s: string): Option<Json> {
    match ParseValue(s)
    case Some((j, rest)) => if |SkipSpace(rest)| == 0 then Some(j) else None
    case None => None
  }

  // ------------------------------------------------------------------
  // Reading properties of a parsed object
  // ------------------------------------------------------------------

  /** `obj[key]` on a parsed object: a repeated key keeps its last value, as in `JSON.parse`. */
  function Get(fields: seq<Field>, key: string): (r: Option<Json>)
    ensures r.None? <==> forall i :: 0 <= i < |fields| ==> fields[i].key != key
    ensures r.Some? ==> Field(key, r.value) in fields
  {
    if |fields| == 0 then None
    else if fields[|fields| - 1].key == key then Some(fields[|fields| - 1].value)
    else Get(fields[..|fields| - 1], key)
  }

  /** The value of a key is that of its last field: later fields with other keys do not
      hide it, and earlier fields with the same key do not count. */
  lemma {:induction false} GetLastField(fields: seq<Field>, i: nat)
    requires i < |fields|
    requires forall k :: i < k < |fields| ==> fields[k].key != fields[i].key
    ensures Get(fields, fields[i].key) == Some(fields[i].value)
  {
    if i < |fields| - 1 {
      var init := fields[..|fields| - 1];
      assert init[i] == fields[i];
      GetLastField(init, i);
    }
  }

  /** A property that holds a string. */
  function GetString(fields: seq<Field>, key: string): Option<string> {
    match Get(fields, key)
    case Some(JStr(s)) => Some(s)
    case _ => None
  }

  // ------------------------------------------------------------------
  // JSON.parse(JSON.stringify(j)) == j
  // ------------------------------------------------------------------

  /** What may follow a value inside a JSON text that `Stringify` wrote. */
  predicate Delimiter(rest: string) {
    |rest| == 0 || rest[0] == ',' || rest[0] == ']' || rest[0] == '}'
  }

  ghost predicate RoundTrips(j: Json) {
    forall rest :: Delimiter(rest) ==> ParseValue(Stringify(j) + rest) == Some((j, rest))
  }

  lemma SkipSpaceAtToken(s: string)
    requires |s| > 0 && !IsJsonSpace(s[0])
    ensures SkipSpace(s) == s
  {
  }

  /** One step of `ParseValue` on input that starts with a number. */
  lemma ParseValueAtNumber(t: string)
    requires |t| > 0 && (t[0] == '-' || IsDigit(t[0]))
    ensures ParseValue(t) == ParseNumber(t)
  {
    SkipSpaceAtToken(t);
    assert t[0] != 'n' && t[0] != 't' && t[0] != 'f' && t[0] != '"' && t[0] != '[' && t[0] != '{';
  }

  /** One step of `ParseValue` on input that starts with a string literal. */
  lemma ParseValueAtQuote(t: string)
    requires |t| > 0 && t[0] == '"'
    ensures ParseValue(t) == match ParseChars(t[1..])
                             case Some((str, rest)) => Some((JStr(str), rest))
                             case None => None
  {
    SkipSpaceAtToken(t);
  }

  /** One step of `ParseValue` on input that starts with an array. */
  lemma ParseValueAtArray(t: string)
    requires |t| > 0 && t[0] == '['
    ensures ParseValue(t) == ParseArray(t[1..])
  {
    SkipSpaceAtToken(t);
  }

  /** One step of `ParseValue` on input that starts with an object. */
  lemma ParseValueAtObject(t: string)
    requires |t| > 0 && t[0] == '{'
    ensures ParseValue(t) == ParseObject(t[1..])
  {
    SkipSpaceAtToken(t);
  }

  /** One step of `ParseElements` once its first value has been read. */
  lemma ParseElementsStep(s: string, v: Json, r1: string)
    requires ParseValue(s) == Some((v, r1)) && |r1| > 0
    ensures r1[0] == ']' ==> ParseElements(s) == Some(([v], r1[1..]))
    ensures r1[0] == ',' ==> ParseElements(s) == match ParseElements(r1[1..])
                                                case Some((vs, rest)) => Some(([v] + vs, rest))
                                                case None => None
  {
    if r1[0] == ']' || r1[0] == ',' {
      SkipSpaceAtToken(r1);
    }
  }

  /** Reading one escaped character gives it back and resumes after its escape. */
  lemma ParseEscapeChar(c: char, t: string)
    ensures ParseChars(EscapeChar(c) + t) == Prepend(c, ParseChars(t))
  {
    if c == '"' || c == '\\' || c == 8 as char || c == '\t' || c == '\n' || c == 12 as char || c == '\r' {
      ParseShortEscape(c, t);
    } else if (c as int) < 0x20 {
      ParseUnicodeEscape(c, t);
    } else {
      var s := EscapeChar(c) + t;
      assert s == [c] + t;
      assert s[1..] == t;
    }
  }

  lemma ParseShortEscape(c: char, t: string)
    requires c == '"' || c == '\\' || c == 8 as char || c == '\t' || c == '\n' || c == 12 as char || c == '\r'
    ensures ParseChars(EscapeChar(c) + t) == Prepend(c, ParseChars(t))
  {
    var s := EscapeChar(c) + t;
    assert |EscapeChar(c)| == 2 && EscapeChar(c)[0] == '\\';
    assert s[0] == '\\' && s[2..] == t;
    assert s[1..][1..] == t;
    assert ParseEscape(s[1..]) == Some((c, t));
  }

  lemma ParseUnicodeEscape(c: char, t: string)
    requires (c as int) < 0x20
    requires !(c == '"' || c == '\\' || c == 8 as char || c == '\t' || c == '\n' || c == 12 as char || c == '\r')
    ensures ParseChars(EscapeChar(c) + t) == Prepend(c, ParseChars(t))
  {
    var s := EscapeChar(c) + t;
    var h := [HexDigit((c as int) / 16), HexDigit((c as int) % 16)];
    assert s == "\\u00" + h + t;
    var u := s[1..];
    assert u == "u00" + h + t;
    assert u[1..5] == "00" + h;
    assert ParseHex4(u[1..5]) == Some(c as int);
    assert u[5..] == t;
    assert ParseEscape(u) == Some((c, t));
  }

  lemma {:induction false} ParseCharsQuoted(s: string, rest: string)
    ensures ParseChars(EscapeBody(s) + "\"" + rest) == Some((s, rest))
  {
    if |s| == 0 {
      assert EscapeBody(s) + "\"" + rest == "\"" + rest;
    } else {
      var t := EscapeBody(s[1..]) + "\"" + rest;
      assert EscapeBody(s) + "\"" + rest == EscapeChar(s[0]) + t;
      ParseEscapeChar(s[0], t);
      ParseCharsQuoted(s[1..], rest);
      assert [s[0]] + s[1..] == s;
    }
  }

  lemma ParseQuoted(s: string, rest: string)
    ensures ParseValue(Quote(s) + rest) == Some((JStr(s), rest))
  {
    ParseCharsAfterQuote(s, rest);
    ParseValueAtQuote(Quote(s) + rest);
  }

  lemma ParseNatDigits(m: nat, rest: string)
    requires Delimiter(rest)
    ensures ParseNat(NatDigits(m) + rest) == Some((m, rest))
  {
    var ds := NatDigits(m);
    DigitPrefixOfDigits(ds, rest);
    DigitsValueOfNatDigits(m);
    assert (ds + rest)[|ds|..] == rest;
  }

  lemma ParseNumberText(n: int, rest: string)
    requires Delimiter(rest)
    ensures ParseValue(DecimalString(n) + rest) == Some((JNum(n), rest))
  {
    var text := DecimalString(n) + rest;
    assert text[0] == '-' || IsDigit(text[0]);
    ParseValueAtNumber(text);
    if n < 0 {
      ParseNumberNegative(n, rest);
    } else {
      ParseNumberNatural(n, rest);
    }
  }

  lemma ParseNumberNatural(n: int, rest: string)
    requires n >= 0 && Delimiter(rest)
    ensures ParseNumber(DecimalString(n) + rest) == Some((JNum(n), rest))
  {
    var text := DecimalString(n) + rest;
    assert text == NatDigits(n) + rest;
    ParseNatDigits(n, rest);
  }

  lemma ParseNumberNegative(n: int, rest: string)
    requires n < 0 && Delimiter(rest)
    ensures ParseNumber(DecimalString(n) + rest) == Some((JNum(n), rest))
  {
    var m: nat := -n;
    var tail := NatDigits(m) + rest;
    ParseNatDigits(m, rest);
    ParseNumberMinus(tail, m, rest);
    assert DecimalString(n) + rest == "-" + tail;
  }

  lemma ParseNumberMinus(tail: string, m: int, rest: string)
    requires ParseNat(tail) == Some((m, rest))
    ensures ParseNumber("-" + tail) == Some((JNum(-m), rest))
  {
    assert ("-" + tail)[1..] == tail;
  }

  /** `Join` of two or more parts, with the first part split off. */
  lemma JoinCons(parts: seq<string>, rest: string)
    requires |parts| > 1
    ensures Join(parts) + rest == parts[0] + ("," + (Join(parts[1..]) + rest))
  {
    assert Join(parts) == parts[0] + "," + Join(parts[1..]);
    Regroup(parts[0], ",", Join(parts[1..]), rest);
  }

  lemma Regroup(a: string, b: string, c: string, d: string)
    ensures a + b + c + d == a + (b + (c + d))
  {
  }

  /** One step of `ParseElements` on a value written by `Stringify`. */
  lemma ParseElementsAfter(v: Json, after: string)
    requires RoundTrips(v) && |after| > 0 && (after[0] == ']' || after[0] == ',')
    ensures after[0] == ']' ==> ParseElements(Stringify(v) + after) == Some(([v], after[1..]))
    ensures after[0] == ',' ==> ParseElements(Stringify(v) + after) == match ParseElements(after[1..])
                                                                       case Some((vs, rest)) => Some(([v] + vs, rest))
                                                                       case None => None
  {
    assert Delimiter(after);
    ParseElementsStep(Stringify(v) + after, v, after);
  }

  lemma StringifyAllCons(items: seq<Json>)
    requires |items| > 0
    ensures StringifyAll(items)[0] == Stringify(items[0])
    ensures StringifyAll(items)[1..] == StringifyAll(items[1..])
  {
  }

  /** A single array element followed by the closing bracket. */
  lemma ParseElementsLast(v: Json, rest: string)
    requires RoundTrips(v)
    ensures ParseElements(Join(StringifyAll([v])) + ("]" + rest)) == Some(([v], rest))
  {
    StringifyAllCons([v]);
    assert Join(StringifyAll([v])) == Stringify(v);
    ParseElementsAfter(v, "]" + rest);
    assert ("]" + rest)[1..] == rest;
  }

  /** An array element, a comma, and the elements after it. */
  lemma ParseElementsComma(v: Json, tail: string, vs: seq<Json>, rest: string)
    requires RoundTrips(v) && ParseElements(tail) == Some((vs, rest))
    ensures ParseElements(Stringify(v) + ("," + tail)) == Some(([v] + vs, rest))
  {
    ParseElementsAfter(v, "," + tail);
    assert ("," + tail)[1..] == tail;
  }

  lemma ParseElementsCons(items: seq<Json>, rest: string)
    requires |items| > 1 && RoundTrips(items[0])
    requires ParseElements(Join(StringifyAll(items[1..])) + ("]" + rest)) == Some((items[1..], rest))
    ensures ParseElements(Join(StringifyAll(items)) + ("]" + rest)) == Some((items, rest))
  {
    var parts := StringifyAll(items);
    StringifyAllCons(items);
    JoinCons(parts, "]" + rest);
    ParseElementsComma(items[0], Join(parts[1..]) + ("]" + rest), items[1..], rest);
    assert [items[0]] + items[1..] == items;
  }

  lemma {:induction false} ParseElementsJoined(items: seq<Json>, rest: string)
    requires |items| > 0
    requires forall i :: 0 <= i < |items| ==> RoundTrips(items[i])
    ensures ParseElements(Join(StringifyAll(items)) + ("]" + rest)) == Some((items, rest))
  {
    assert RoundTrips(items[0]);
    if |items| == 1 {
      assert [items[0]] == items;
      ParseElementsLast(items[0], rest);
    } else {
      ParseElementsJoined(items[1..], rest);
      ParseElementsCons(items, rest);
    }
  }

  /** One step of `ParseMembers` once a key, its colon and its value have been read. */
  /** `ParseMember` on a key, its colon and its value. */
  lemma ParseMemberAt(s: string, key: string, r1: string, v: Json, r3: string)
    requires |s| > 0 && s[0] == '"' && ParseChars(s[1..]) == Some((key, r1))
    requires |r1| > 0 && r1[0] == ':' && ParseValue(r1[1..]) == Some((v, r3))
    ensures ParseMember(s) == Some((Field(key, v), r3))
  {
    SkipSpaceAtToken(s);
    SkipSpaceAtToken(r1);
  }

  /** `ParseMembers` when its first member is followed by the closing brace. */
  lemma ParseMembersClose(s: string, f: Field, r1: string)
    requires ParseMember(s) == Some((f, r1)) && |r1| > 0 && r1[0] == '}'
    ensures ParseMembers(s) == Some(([f], r1[1..]))
  {
    SkipSpaceAtToken(r1);
    assert MoreMembers(Some((f, r1)), |s|) == Some(([f], r1[1..]));
  }

  /** `ParseMembers` when its first member is followed by a comma. */
  lemma ParseMembersNext(s: string, f: Field, r1: string)
    requires ParseMember(s) == Some((f, r1)) && |r1| > 0 && r1[0] == ','
    ensures ParseMembers(s) == match ParseMembers(r1[1..])
                               case Some((fs, rest)) => Some(([f] + fs, rest))
                               case None => None
  {
    SkipSpaceAtToken(r1);
  }

  /** A string literal followed by anything: its characters and what follows it. */
  lemma ParseCharsAfterQuote(key: string, r1: string)
    ensures |Quote(key) + r1| > 0 && (Quote(key) + r1)[0] == '"'
    ensures ParseChars((Quote(key) + r1)[1..]) == Some((key, r1))
  {
    assert (Quote(key) + r1)[1..] == EscapeBody(key) + "\"" + r1;
    ParseCharsQuoted(key, r1);
  }

  /** `ParseMember` on a `"key":value` member, whatever wrote the value. */
  lemma ParseMemberText(key: string, valueText: string, v: Json, after: string)
    requires ParseValue(valueText + after) == Some((v, after))
    ensures ParseMember(Quote(key) + (":" + (valueText + after))) == Some((Field(key, v), after))
  {
    var r1 := ":" + (valueText + after);
    ParseCharsAfterQuote(key, r1);
    assert r1[1..] == valueText + after;
    ParseMemberAt(Quote(key) + r1, key, r1, v, after);
  }

  /** A member as `MemberText` writes it, followed by a delimiter. */
  lemma MemberTextThen(f: Field, after: string)
    requires RoundTrips(f.value) && Delimiter(after)
    ensures MemberText(f) + after == Quote(f.key) + (":" + (Stringify(f.value) + after))
    ensures ParseValue(Stringify(f.value) + after) == Some((f.value, after))
  {
  }

  lemma MembersTextCons(fields: seq<Field>)
    requires |fields| > 0
    ensures MembersText(fields)[0] == MemberText(fields[0])
    ensures MembersText(fields)[1..] == MembersText(fields[1..])
  {
  }

  /** A member written by `MemberText`, read back by `ParseMember`. */
  lemma ParseMemberStringify(f: Field, after: string)
    requires RoundTrips(f.value) && Delimiter(after)
    ensures ParseMember(MemberText(f) + after) == Some((f, after))
  {
    MemberTextThen(f, after);
    ParseMemberText(f.key, Stringify(f.value), f.value, after);
  }

  /** A single member followed by the closing brace. */
  lemma ParseMembersLast(f: Field, rest: string)
    requires RoundTrips(f.value)
    ensures ParseMembers(Join(MembersText([f])) + ("}" + rest)) == Some(([f], rest))
  {
    MembersTextCons([f]);
    assert Join(MembersText([f])) == MemberText(f);
    ParseMemberStringify(f, "}" + rest);
    ParseMembersClose(MemberText(f) + ("}" + rest), f, "}" + rest);
    assert ("}" + rest)[1..] == rest;
  }

  /** A member, a comma, and the members after it. */
  lemma ParseMembersComma(f: Field, tail: string, fs: seq<Field>, rest: string)
    requires RoundTrips(f.value) && ParseMembers(tail) == Some((fs, rest))
    ensures ParseMembers(MemberText(f) + ("," + tail)) == Some(([f] + fs, rest))
  {
    ParseMemberStringify(f, "," + tail);
    assert ("," + tail)[1..] == tail;
    ParseMembersNext(MemberText(f) + ("," + tail), f, "," + tail);
  }

  /** The text of two or more members, with the first member split off. */
  lemma MembersJoinSplit(fields: seq<Field>, after: string)
    requires |fields| > 1
    ensures Join(MembersText(fields)) + after
            == MemberText(fields[0]) + ("," + (Join(MembersText(fields[1..])) + after))
  {
    MembersTextCons(fields);
    JoinCons(MembersText(fields), after);
  }

  lemma ParseMembersCons(fields: seq<Field>, rest: string)
    requires |fields| > 1 && RoundTrips(fields[0].value)
    requires ParseMembers(Join(MembersText(fields[1..])) + ("}" + rest)) == Some((fields[1..], rest))
    ensures ParseMembers(Join(MembersText(fields)) + ("}" + rest)) == Some((fields, rest))
  {
    MembersJoinSplit(fields, "}" + rest);
    ParseMembersComma(fields[0], Join(MembersText(fields[1..])) + ("}" + rest), fields[1..], rest);
    assert [fields[0]] + fields[1..] == fields;
  }

  lemma {:induction false} ParseMembersJoined(fields: seq<Field>, rest: string)
    requires |fields| > 0
    requires forall i :: 0 <= i < |fields| ==> RoundTrips(fields[i].value)
    ensures ParseMembers(Join(MembersText(fields)) + ("}" + rest)) == Some((fields, rest))
  {
    assert RoundTrips(fields[0].value);
    if |fields| == 1 {
      assert [fields[0]] == fields;
      ParseMembersLast(fields[0], rest);
    } else {
      ParseMembersJoined(fields[1..], rest);
      ParseMembersCons(fields, rest);
    }
  }

  lemma ParseLiteralText(j: Json, rest: string)
    requires j.JNull? || j.JBool?
    ensures ParseValue(Stringify(j) + rest) == Some((j, rest))
  {
    var text := Stringify(j) + rest;
    SkipSpaceAtToken(text);
    if j.JNull? {
      assert text[..4] == "null" && text[4..] == rest;
    } else if j.b {
      assert text[..4] == "true" && text[4..] == rest;
    } else {
      assert text[..5] == "false" && text[5..] == rest;
    }
  }

  lemma StringifyArray(items: seq<Json>)
    ensures Stringify(JArr(items)) == "[" + Join(StringifyAll(items)) + "]"
  {
  }

  lemma StringifyObject(fields: seq<Field>)
    ensures Stringify(JObj(fields)) == "{" + Join(MembersText(fields)) + "}"
  {
    assert seq(|fields|, i requires 0 <= i < |fields| =>
                 Quote(fields[i].key) + ":" + Stringify(fields[i].value)) == MembersText(fields);
  }

  /** A joined list starts where its first part starts. */
  lemma JoinStart(parts: seq<string>, after: string)
    requires |parts| > 0 && |parts[0]| > 0
    ensures |Join(parts) + after| > 0 && (Join(parts) + after)[0] == parts[0][0]
  {
  }

  /** An array: `[` followed by its elements, or by `]` when it is empty. */
  lemma ParseArrayOpen(inner: string, items: seq<Json>, rest: string)
    requires (|items| == 0 && inner == "]" + rest)
             || (|inner| > 0 && StartsValue(inner[0]) && ParseElements(inner) == Some((items, rest)))
    ensures ParseValue("[" + inner) == Some((JArr(items), rest))
  {
    ParseValueAtArray("[" + inner);
    assert ("[" + inner)[1..] == inner;
    if |items| == 0 {
      ParseArrayEmpty(rest);
    } else {
      assert !IsJsonSpace(inner[0]) && inner[0] != ']';
      ParseArrayElements(inner, items, rest);
    }
  }

  lemma ParseArrayEmpty(rest: string)
    ensures ParseArray("]" + rest) == Some((JArr([]), rest))
  {
    SkipSpaceAtToken("]" + rest);
    assert ("]" + rest)[1..] == rest;
  }

  lemma ParseArrayElements(inner: string, items: seq<Json>, rest: string)
    requires |inner| > 0 && !IsJsonSpace(inner[0]) && inner[0] != ']'
    requires ParseElements(inner) == Some((items, rest))
    ensures ParseArray(inner) == Some((JArr(items), rest))
  {
    SkipSpaceAtToken(inner);
  }

  /** An object: `{` followed by its members, or by `}` when it is empty. */
  lemma ParseObjectOpen(inner: string, fields: seq<Field>, rest: string)
    requires (|fields| == 0 && inner == "}" + rest)
             || (|inner| > 0 && inner[0] == '"' && ParseMembers(inner) == Some((fields, rest)))
    ensures ParseValue("{" + inner) == Some((JObj(fields), rest))
  {
    ParseValueAtObject("{" + inner);
    assert ("{" + inner)[1..] == inner;
    if |fields| == 0 {
      ParseObjectEmpty(rest);
    } else {
      ParseObjectMembers(inner, fields, rest);
    }
  }

  lemma ParseObjectEmpty(rest: string)
    ensures ParseObject("}" + rest) == Some((JObj([]), rest))
  {
    SkipSpaceAtToken("}" + rest);
    assert ("}" + rest)[1..] == rest;
  }

  lemma ParseObjectMembers(inner: string, fields: seq<Field>, rest: string)
    requires |inner| > 0 && inner[0] == '"' && ParseMembers(inner) == Some((fields, rest))
    ensures ParseObject(inner) == Some((JObj(fields), rest))
  {
    SkipSpaceAtToken(inner);
  }

  /** The text of an array followed by `rest`, seen from its opening bracket. */
  lemma ArrayTextSplit(items: seq<Json>, rest: string)
    ensures Stringify(JArr(items)) + rest == "[" + (Join(StringifyAll(items)) + ("]" + rest))
    ensures |items| > 0 ==> |Join(StringifyAll(items)) + ("]" + rest)| > 0
                            && StartsValue((Join(StringifyAll(items)) + ("]" + rest))[0])
    ensures |items| == 0 ==> Join(StringifyAll(items)) + ("]" + rest) == "]" + rest
  {
    StringifyArray(items);
    Regroup("[", Join(StringifyAll(items)), "]", rest);
    if |items| > 0 {
      StringifyAllCons(items);
      JoinStart(StringifyAll(items), "]" + rest);
    }
  }

  /** The text of an object followed by `rest`, seen from its opening brace. */
  lemma ObjectTextSplit(fields: seq<Field>, rest: string)
    ensures Stringify(JObj(fields)) + rest == "{" + (Join(MembersText(fields)) + ("}" + rest))
    ensures |fields| > 0 ==> |Join(MembersText(fields)) + ("}" + rest)| > 0
                             && (Join(MembersText(fields)) + ("}" + rest))[0] == '"'
    ensures |fields| == 0 ==> Join(MembersText(fields)) + ("}" + rest) == "}" + rest
  {
    StringifyObject(fields);
    Regroup("{", Join(MembersText(fields)), "}", rest);
    if |fields| > 0 {
      MembersTextCons(fields);
      assert MemberText(fields[0])[0] == '"';
      JoinStart(MembersText(fields), "}" + rest);
    }
  }

  lemma ParseArrayText(items: seq<Json>, rest: string)
    requires Delimiter(rest)
    requires forall i :: 0 <= i < |items| ==> RoundTrips(items[i])
    ensures ParseValue(Stringify(JArr(items)) + rest) == Some((JArr(items), rest))
  {
    ArrayTextSplit(items, rest);
    if |items| > 0 {
      ParseElementsJoined(items, rest);
    }
    ParseArrayOpen(Join(StringifyAll(items)) + ("]" + rest), items, rest);
  }

  lemma ParseObjectText(fields: seq<Field>, rest: string)
    requires Delimiter(rest)
    requires forall i :: 0 <= i < |fields| ==> RoundTrips(fields[i].value)
    ensures ParseValue(Stringify(JObj(fields)) + rest) == Some((JObj(fields), rest))
  {
    ObjectTextSplit(fields, rest);
    if |fields| > 0 {
      ParseMembersJoined(fields, rest);
    }
    ParseObjectOpen(Join(MembersText(fields)) + ("}" + rest), fields, rest);
  }

  /** `JSON.parse` reads back every value `JSON.stringify` writes, whatever delimiter follows. */
  lemma {:induction false} ParseValueStringify(j: Json)
    ensures RoundTrips(j)
    decreases j
  {
    forall rest | Delimiter(rest)
      ensures ParseValue(Stringify(j) + rest) == Some((j, rest))
    {
      match j
      case JNull => ParseLiteralText(j, rest);
      case JBool(_) => ParseLiteralText(j, rest);
      case JNum(n) => ParseNumberText(n, rest);
      case JStr(s) => ParseQuoted(s, rest);
      case JArr(items) =>
        forall i | 0 <= i < |items| ensures RoundTrips(items[i]) {
          ParseValueStringify(items[i]);
        }
        ParseArrayText(items, rest);
      case JObj(fields) =>
        forall i | 0 <= i < |fields| ensures RoundTrips(fields[i].value) {
          ParseValueStringify(fields[i].value);
        }
        ParseObjectText(fields, rest);
    }
  }

  /** `JSON.parse(JSON.stringify(j))` gives `j` back. */
  lemma ParseStringify(j: Json)
    ensures Parse(Stringify(j)) == Some(j)
  {
    ParseValueStringify(j);
    assert Stringify(j) + "" == Stringify(j);
  }
}
