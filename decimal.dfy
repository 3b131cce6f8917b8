/**
 * Decimal integers as the archiver prints and parses them: `%d` and
 * `strconv.AppendInt(..., 10)` for printing, `strconv.ParseInt(s, 10, 64)`
 * and `strconv.Atoi` (the same on a 64-bit platform) for parsing, and
 * `parseUserId` (main.go:397-406).
 */
module Decimal {
  import opened Wrappers

  const MinInt64: int := -0x8000_0000_0000_0000
  const MaxInt64: int := 0x7fff_ffff_ffff_ffff

  predicate IsInt64(n: int) {
    MinInt64 <= n <= MaxInt64
  }

  predicate IsDigit(c: char) {
    '0' <= c <= '9'
  }

  predicate AllDigits(s: string) {
    forall i :: 0 <= i < |s| ==> IsDigit(s[i])
  }

  function DigitChar(d: nat): (c: char)
    requires d < 10
    ensures IsDigit(c)
  {
    ('0' as int + d) as char
  }

  function DigitValue(c: char): (d: nat)
    requires IsDigit(c)
    ensures d < 10 && DigitChar(d) == c
  {
    c as int - '0' as int
  }

  /** The shortest decimal spelling of a natural number. */
  function FormatNat(n: nat): (s: string)
    ensures |s| > 0 && AllDigits(s)
    ensures s[0] == '0' ==> n == 0
  {
    if n < 10 then [DigitChar(n)] else FormatNat(n / 10) + [DigitChar(n % 10)]
  }

  /** `%d` of an integer: a minus sign for negative numbers, then the digits. */
  function FormatInt(n: int): (s: string)
    ensures |s| > 0
    ensures n < 0 <==> s[0] == '-'
    ensures n >= 0 ==> AllDigits(s)
  {
    if n < 0 then "-" + FormatNat(-n) else FormatNat(n)
  }

  /** The value of a run of decimal digits (leading zeros allowed). */
  function DigitsValue(s: string): nat
    requires AllDigits(s)
  {
    if s == [] then 0 else DigitsValue(s[..|s| - 1]) * 10 + DigitValue(s[|s| - 1])
  }

  /** The digits after an optional leading sign. */
  function Unsigned(s: string): string {
    if s != [] && (s[0] == '+' || s[0] == '-') then s[1..] else s
  }

  /** The syntax `strconv.ParseInt` accepts in base 10: an optional sign and at least one digit. */
  predicate DecimalSyntax(s: string) {
    Unsigned(s) != [] && AllDigits(Unsigned(s))
  }

  /** The value of a string of valid syntax, before the range check. */
  function SignedValue(s: string): int
    requires DecimalSyntax(s)
  {
    if s[0] == '-' then -(DigitsValue(Unsigned(s)) as int) else DigitsValue(Unsigned(s))
  }

  /**
   * `strconv.ParseInt(s, 10, 64)`: an optional sign, then at least one
   * decimal digit and nothing else, within the int64 range. Anything else
   * is an error.
   */
  function ParseInt(s: string): (r: Option<int>)
    ensures r.Some? <==> DecimalSyntax(s) && IsInt64(SignedValue(s))
    ensures r.Some? ==> IsInt64(r.value) && r.value == SignedValue(s)
  {
    if DecimalSyntax(s) && IsInt64(SignedValue(s)) then Some(SignedValue(s)) else None
  }

  /** The lower-case hexadecimal digit of `d`. */
  function HexDigit(d: nat): char
    requires d < 16
  {
    "0123456789abcdef"[d]
  }

  /**
   * How `strconv.Quote` writes one character: `"` and `\` get a backslash,
   * the control characters with a short escape get it, other ASCII control
   * characters become `\x` and two hex digits, and the rest is kept.
   */
  function QuoteChar(c: char): string {
    if c == '"' then "\\\""
    else if c == '\\' then "\\\\"
    else if c == '\U{7}' then "\\a"
    else if c == '\U{8}' then "\\b"
    else if c == '\U{c}' then "\\f"
    else if c == '\n' then "\\n"
    else if c == '\r' then "\\r"
    else if c == '\t' then "\\t"
    else if c == '\U{b}' then "\\v"
    else if c < ' ' || c == '\U{7f}' then "\\x" + [HexDigit(c as int / 16), HexDigit(c as int % 16)]
    else [c]
  }

  function QuoteChars(s: string): string {
    if s == [] then "" else QuoteChar(s[0]) + QuoteChars(s[1..])
  }

  /** `strconv.Quote`: the text between double quotes, escaped. */
  function Quote(s: string): string {
    "\"" + QuoteChars(s) + "\""
  }

  /** Printable ASCII text without `"` and `\` is quoted as it is. */
  lemma {:induction false} QuotePlain(s: string)
    requires forall i :: 0 <= i < |s| ==> ' ' <= s[i] < '\U{7f}' && s[i] != '"' && s[i] != '\\'
    ensures Quote(s) == "\"" + s + "\""
    ensures QuoteChars(s) == s
  {
    if s != [] {
      QuotePlain(s[1..]);
    }
  }

  /** Quoted text holds no raw double quote: each one inside is escaped. */
  lemma {:induction false} QuoteEscapesQuotes(s: string)
    ensures forall i :: 0 <= i < |QuoteChars(s)| && QuoteChars(s)[i] == '"' ==> i > 0 && QuoteChars(s)[i - 1] == '\\'
  {
    if s != [] {
      QuoteEscapesQuotes(s[1..]);
      var head, tail := QuoteChar(s[0]), QuoteChars(s[1..]);
      assert QuoteChars(s) == head + tail;
      forall i | 0 <= i < |head + tail| && (head + tail)[i] == '"'
        ensures i > 0 && (head + tail)[i - 1] == '\\'
      {
        if i >= |head| {
          assert (head + tail)[i] == tail[i - |head|];
          assert (head + tail)[i - 1] == tail[i - |head| - 1];
        }
      }
    }
  }

  /**
   * The text of the `*strconv.NumError` that `fn` returns for `s`: the
   * input appears quoted, as `strconv.Quote` writes it.
   */
  function NumError(fn: string, s: string): string {
    "strconv." + fn + ": parsing " + Quote(s) + ": "
      + (if DecimalSyntax(s) then "value out of range" else "invalid syntax")
  }

  /** A double quote in the input is escaped in the quoted text, as Go writes `a"b`. */
  lemma QuoteOfDoubleQuote()
    ensures Quote("a\"b") == "\"a\\\"b\""
  {
    assert QuoteChars("b") == "b" by {
      assert "b"[1..] == "";
    }
    assert QuoteChars("\"b") == "\\\"b" by {
      assert "\"b"[1..] == "b";
    }
    assert "a\"b"[1..] == "\"b";
  }

  lemma {:induction false} DigitsValueOfFormat(n: nat)
    ensures DigitsValue(FormatNat(n)) == n
  {
    var s := FormatNat(n);
    if n >= 10 {
      DigitsValueOfFormat(n / 10);
      assert s[..|s| - 1] == FormatNat(n / 10);
    }
  }

  /** Parsing what `%d` printed gives the number back. */
  lemma {:induction false} ParseFormatInt(n: int)
    requires IsInt64(n)
    ensures ParseInt(FormatInt(n)) == Some(n)
  {
    var s := FormatInt(n);
    if n < 0 {
      var f := FormatNat(-n);
      DigitsValueOfFormat(-n);
      assert s[0] == '-' && Unsigned(s) == f;
    } else {
      DigitsValueOfFormat(n);
      assert IsDigit(s[0]) && Unsigned(s) == s;
    }
  }

  /** Different numbers print differently. */
  lemma FormatIntInjective(a: int, b: int)
    requires IsInt64(a) && IsInt64(b) && FormatInt(a) == FormatInt(b)
    ensures a == b
  {
    ParseFormatInt(a);
    ParseFormatInt(b);
  }

  /**
   * `parseUserId`: the empty string stands for user 0, anything else must
   * parse as an int64; the error text is the one the source produces.
   */
  function ParseUserId(idstr: string): (r: Result<int, string>)
    ensures idstr == "" ==> r == Ok(0)
    ensures idstr != "" ==> (r.Ok? <==> ParseInt(idstr).Some?)
    ensures r.Ok? ==> IsInt64(r.value)
    ensures idstr != "" && r.Ok? ==> r.value == SignedValue(idstr)
    ensures r.Err? ==> r.error == "failed to parse user id string as int64 - " + NumError("ParseInt", idstr)
  {
    if idstr == "" then Ok(0)
    else
      match ParseInt(idstr)
      case Some(id) => Ok(id)
      case None => Err("failed to parse user id string as int64 - " + NumError("ParseInt", idstr))
  }

  /** A user id prints and parses back through `parseUserId`. */
  lemma ParseUserIdRoundTrip(id: int)
    requires IsInt64(id)
    ensures ParseUserId(FormatInt(id)) == Ok(id)
  {
    ParseFormatInt(id);
  }
}
