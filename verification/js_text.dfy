/** The JavaScript built-ins the app relies on for text: `String.prototype.trim`,
    `String(n)` / `n.toString()` on integers, and `parseInt(s, 10)`. */
module JsText {
  import opened Maybe

  /** ECMAScript WhiteSpace and LineTerminator code points: what `trim()` removes
      and what `parseInt` skips before the number. */
  predicate IsWhiteSpace(c: char) {
    var n := c as int;
    n == 0x09 || n == 0x0A || n == 0x0B || n == 0x0C || n == 0x0D || n == 0x20 || n == 0xA0
    || n == 0x1680 || (0x2000 <= n <= 0x200A) || n == 0x2028 || n == 0x2029 || n == 0x202F
    || n == 0x205F || n == 0x3000 || n == 0xFEFF
  }

  predicate IsDigit(c: char) {
    '0' <= c <= '9'
  }

  predicate AllWhiteSpace(s: string) {
    forall i :: 0 <= i < |s| ==> IsWhiteSpace(s[i])
  }

  predicate AllDigits(s: string) {
    forall i :: 0 <= i < |s| ==> IsDigit(s[i])
  }

  /** `trimStart()`: the suffix left after dropping leading white space. */
  function TrimStart(s: string): (r: string)
    ensures |r| <= |s|
    ensures |r| == 0 || !IsWhiteSpace(r[0])
  {
    if |s| > 0 && IsWhiteSpace(s[0]) then TrimStart(s[1..]) else s
  }

  /** `trimEnd()`: the prefix left after dropping trailing white space. */
  function TrimEnd(s: string): (r: string)
    ensures |r| <= |s|
    ensures |r| == 0 || !IsWhiteSpace(r[|r| - 1])
    ensures |r| > 0 ==> r[0] == s[0]
  {
    if |s| > 0 && IsWhiteSpace(s[|s| - 1]) then TrimEnd(s[..|s| - 1]) else s
  }

  /** `trim()`: white space removed from both ends. */
  function Trim(s: string): (r: string)
    ensures |r| <= |s|
    ensures |r| == 0 || (!IsWhiteSpace(r[0]) && !IsWhiteSpace(r[|r| - 1]))
  {
    TrimEnd(TrimStart(s))
  }

  /** What `trimStart()` removes is a run of white space, and what it keeps is the rest. */
  lemma {:induction false} TrimStartSplits(s: string)
    ensures s == s[..|s| - |TrimStart(s)|] + TrimStart(s)
    ensures AllWhiteSpace(s[..|s| - |TrimStart(s)|])
  {
    if |s| > 0 && IsWhiteSpace(s[0]) {
      TrimStartSplits(s[1..]);
      var k := |s| - |TrimStart(s)|;
      assert s[1..][..k - 1] == s[1..k];
      assert s[..k] == [s[0]] + s[1..k];
    }
  }

  /** What `trimEnd()` removes is a run of white space, and what it keeps is the rest. */
  lemma {:induction false} TrimEndSplits(s: string)
    ensures s == TrimEnd(s) + s[|TrimEnd(s)|..]
    ensures AllWhiteSpace(s[|TrimEnd(s)|..])
  {
    if |s| > 0 && IsWhiteSpace(s[|s| - 1]) {
      var t := s[..|s| - 1];
      TrimEndSplits(t);
      var k := |TrimEnd(s)|;
      assert t[k..] + [s[|s| - 1]] == s[k..];
    }
  }

  /** A string of white space only trims to the empty string. */
  lemma {:induction false} TrimOfBlank(s: string)
    requires AllWhiteSpace(s)
    ensures Trim(s) == []
  {
    TrimStartOfBlank(s);
  }

  lemma {:induction false} TrimStartOfBlank(s: string)
    requires AllWhiteSpace(s)
    ensures TrimStart(s) == []
  {
    if |s| > 0 {
      TrimStartOfBlank(s[1..]);
    }
  }

  /** A string that already starts and ends with a non-blank character is its own trim. */
  lemma TrimFixesTrimmed(s: string)
    requires |s| > 0 && !IsWhiteSpace(s[0]) && !IsWhiteSpace(s[|s| - 1])
    ensures Trim(s) == s
  {
  }

  /** Trimming keeps the last character when it is not white space. */
  lemma TrimKeepsLast(s: string)
    requires |s| > 0 && !IsWhiteSpace(s[|s| - 1])
    ensures |Trim(s)| > 0 && Trim(s)[|Trim(s)| - 1] == s[|s| - 1]
  {
    TrimStartKeepsLast(s);
    TrimEndKeeps(TrimStart(s));
  }

  /** `trimEnd()` leaves alone a string whose last character is not white space. */
  lemma TrimEndKeeps(t: string)
    requires |t| > 0 && !IsWhiteSpace(t[|t| - 1])
    ensures TrimEnd(t) == t
  {
  }

  lemma {:induction false} TrimStartKeepsLast(s: string)
    requires |s| > 0 && !IsWhiteSpace(s[|s| - 1])
    ensures |TrimStart(s)| > 0 && TrimStart(s)[|TrimStart(s)| - 1] == s[|s| - 1]
  {
    if IsWhiteSpace(s[0]) {
      TrimStartKeepsLast(s[1..]);
    }
  }

  function DigitChar(d: nat): (c: char)
    requires d < 10
    ensures IsDigit(c) && DigitOf(c) == d
  {
    (48 + d) as char
  }

  function DigitOf(c: char): nat
    requires IsDigit(c)
  {
    (c as int - 48) as nat
  }

  /** The decimal digits of a natural number, most significant first, no leading zero. */
  function NatDigits(n: nat): (r: string)
    ensures |r| > 0 && AllDigits(r)
    ensures r[0] == '0' ==> n == 0 && r == "0"
  {
    if n < 10 then [DigitChar(n)] else NatDigits(n / 10) + [DigitChar(n % 10)]
  }

  /** `String(n)` for an integer value `n`. */
  function DecimalString(n: int): (r: string)
    ensures |r| > 0
    ensures n < 0 <==> r[0] == '-'
  {
    if n < 0 then "-" + NatDigits(-n) else NatDigits(n)
  }

  /** The value of a run of decimal digits. */
  function DigitsValue(ds: string): nat
    requires AllDigits(ds)
  {
    if |ds| == 0 then 0 else DigitsValue(ds[..|ds| - 1]) * 10 + DigitOf(ds[|ds| - 1])
  }

  lemma {:induction false} DigitsValueOfNatDigits(n: nat)
    ensures DigitsValue(NatDigits(n)) == n
  {
    if n >= 10 {
      var ds := NatDigits(n);
      var prefix := NatDigits(n / 10);
      assert ds[..|ds| - 1] == prefix;
      DigitsValueOfNatDigits(n / 10);
    }
  }

  /** The longest prefix of `s` made of decimal digits. */
  function DigitPrefix(s: string): (r: string)
    ensures |r| <= |s| && r == s[..|r|] && AllDigits(r)
    ensures |r| == |s| || !IsDigit(s[|r|])
  {
    if |s| > 0 && IsDigit(s[0]) then [s[0]] + DigitPrefix(s[1..]) else []
  }

  lemma {:induction false} DigitPrefixOfDigits(ds: string, rest: string)
    requires AllDigits(ds)
    requires rest == [] || !IsDigit(rest[0])
    ensures DigitPrefix(ds + rest) == ds
  {
    if |ds| > 0 {
      assert (ds + rest)[1..] == ds[1..] + rest;
      DigitPrefixOfDigits(ds[1..], rest);
    } else {
      assert ds + rest == rest;
    }
  }

  /** `parseInt(s, 10)`: leading white space and one sign are skipped, then the longest
      run of decimal digits is read; `None` stands for `NaN` (no digit at all). */
  function ParseInt(s: string): (r: Option<int>)
  {
    ParseSigned(TrimStart(s))
  }

  function ParseSigned(t: string): Option<int> {
    if |t| > 0 && t[0] == '-' then
      match ParseDigits(t[1..])
      case Some(v) => Some(-v)
      case None => None
    else if |t| > 0 && t[0] == '+' then ParseDigits(t[1..])
    else ParseDigits(t)
  }

  function ParseDigits(u: string): Option<int> {
    var ds := DigitPrefix(u);
    if |ds| == 0 then None else Some(DigitsValue(ds))
  }

  lemma ParseDigitsOfDigits(ds: string, rest: string)
    requires AllDigits(ds) && |ds| > 0
    requires rest == [] || !IsDigit(rest[0])
    ensures ParseDigits(ds + rest) == Some(DigitsValue(ds))
  {
    DigitPrefixOfDigits(ds, rest);
  }

  /** `parseInt` reads back what `String(n)` wrote, whatever non-digit text follows. */
  lemma ParseIntDecimalString(n: int, rest: string)
    requires rest == [] || !IsDigit(rest[0])
    ensures ParseInt(DecimalString(n) + rest) == Some(n)
  {
    if n < 0 {
      ParseIntNegative(n, rest);
    } else {
      ParseIntNatural(n, rest);
    }
  }

  lemma ParseIntNatural(n: int, rest: string)
    requires n >= 0
    requires rest == [] || !IsDigit(rest[0])
    ensures ParseInt(DecimalString(n) + rest) == Some(n)
  {
    var ds := NatDigits(n);
    assert DecimalString(n) == ds;
    ParseDigitsOfDigits(ds, rest);
    DigitsValueOfNatDigits(n);
    var s := ds + rest;
    NotBlankStart(s);
    assert ParseSigned(s) == ParseDigits(s);
  }

  lemma ParseIntNegative(n: int, rest: string)
    requires n < 0
    requires rest == [] || !IsDigit(rest[0])
    ensures ParseInt(DecimalString(n) + rest) == Some(n)
  {
    var m: nat := -n;
    var ds := NatDigits(m);
    ParseDigitsOfDigits(ds, rest);
    DigitsValueOfNatDigits(m);
    var s := DecimalString(n) + rest;
    assert s == "-" + (ds + rest);
    NotBlankStart(s);
    assert s[1..] == ds + rest;
    assert ParseSigned(s) == Some(-(m as int));
  }

  /** A string that starts with a sign or a digit is left alone by `trimStart()`. */
  lemma NotBlankStart(s: string)
    requires |s| > 0 && (s[0] == '-' || IsDigit(s[0]))
    ensures TrimStart(s) == s
  {
    assert !IsWhiteSpace(s[0]);
  }

  lemma ParseIntOfDecimalString(n: int)
    ensures ParseInt(DecimalString(n)) == Some(n)
  {
    ParseIntDecimalString(n, []);
    assert DecimalString(n) + [] == DecimalString(n);
  }
}
