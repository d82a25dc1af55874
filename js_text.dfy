/** The JavaScript string semantics the client screens rely on: `trim()`, the `\s`
    class, case conversion, number-to-string, and `x || default` on a string field. */
module JsText {
  import opened Base

  /** The WhiteSpace and LineTerminator code points of ECMAScript: what `trim()`
      strips and what the regular-expression class `\s` matches. */
  predicate IsSpace(c: char) {
    if c < '\U{0080}' then
      c == ' ' || ('\t' <= c <= '\r')  // tab, line feed, vertical tab, form feed, carriage return
    else
      || c == '\U{00A0}' || c == '\U{1680}'
      || ('\U{2000}' <= c <= '\U{200A}')
      || c == '\U{2028}' || c == '\U{2029}' || c == '\U{202F}' || c == '\U{205F}'
      || c == '\U{3000}' || c == '\U{FEFF}'
  }

  /** Every character of `s` is white space (the empty string included). */
  predicate Blank(s: string) {
    forall i :: 0 <= i < |s| ==> IsSpace(s[i])
  }

  /** `s` with its leading white space removed. */
  function TrimStart(s: string): (r: string)
    ensures |r| <= |s| && r == s[|s| - |r|..]
    ensures r == [] <==> Blank(s)
    ensures r != [] ==> !IsSpace(r[0])
  {
    if s != [] && IsSpace(s[0]) then TrimStart(s[1..]) else s
  }

  /** `s` with its trailing white space removed. */
  function TrimEnd(s: string): (r: string)
    ensures |r| <= |s| && r == s[..|r|]
    ensures r == [] <==> Blank(s)
    ensures r != [] ==> !IsSpace(r[|r| - 1])
  {
    if s != [] && IsSpace(s[|s| - 1]) then TrimEnd(s[..|s| - 1]) else s
  }

  /** `String.prototype.trim`. */
  function Trim(s: string): string {
    TrimEnd(TrimStart(s))
  }

  /** `!s.trim()` holds exactly for the strings made of white space only. */
  lemma TrimEmptyIffBlank(s: string)
    ensures Trim(s) == [] <==> Blank(s)
  {
    var t := TrimStart(s);
    if t != [] {
      assert !IsSpace(t[0]);
      assert !Blank(t);
    }
  }

  function LowerChar(c: char): char {
    if 'A' <= c <= 'Z' then (c as int + 32) as char else c
  }

  function UpperChar(c: char): char {
    if 'a' <= c <= 'z' then (c as int - 32) as char else c
  }

  /** `toLowerCase()`, on the ASCII letters. */
  function ToLower(s: string): (r: string)
    ensures |r| == |s|
    ensures forall i :: 0 <= i < |s| ==> r[i] == LowerChar(s[i])
  {
    seq(|s|, i requires 0 <= i < |s| => LowerChar(s[i]))
  }

  /** `s.charAt(0).toUpperCase()`: the first character upper-cased, or "" for "". */
  function InitialOf(s: string): (r: string)
    ensures s == [] <==> r == []
    ensures s != [] ==> r == [UpperChar(s[0])]
  {
    if s == [] then "" else [UpperChar(s[0])]
  }

  /** An avatar URL with a cache-busting `?r=` query, `random` standing for
      `Math.random()`; none for a missing or empty URL. */
  function CacheBusted(url: Option<string>, random: string): (r: Option<string>)
    ensures r.Some? <==> url.Some? && url.value != ""
    ensures r.Some? ==> r.value == url.value + "?r=" + random
  {
    if url.Some? && url.value != "" then Some(url.value + "?r=" + random) else None
  }

  /** JavaScript `field || fallback` for a string field that may be missing: a
      missing field and the empty string are both falsy. */
  function OrElse(field: Option<string>, fallback: string): (r: string)
    ensures field.Some? && field.value != "" ==> r == field.value
    ensures field.None? || field.value == "" ==> r == fallback
  {
    if field.Some? && field.value != "" then field.value else fallback
  }

  function DigitChar(d: nat): char
    requires d < 10
  {
    ('0' as int + d) as char
  }

  function Digits(n: nat): (r: string)
    ensures r != []
    ensures forall i :: 0 <= i < |r| ==> '0' <= r[i] <= '9'
  {
    if n < 10 then [DigitChar(n)] else Digits(n / 10) + [DigitChar(n % 10)]
  }

  /** The decimal rendering of an integer, as template literals and `toString()` write it. */
  function IntToString(n: int): (r: string)
    ensures r != []
  {
    if n < 0 then "-" + Digits(-n) else Digits(n)
  }

  /** A numeric field compared with `== 1`: missing fields are never 1. */
  predicate IsOne(field: Option<int>) {
    field == Some(1)
  }

  /** A numeric field used as a condition: missing and 0 are falsy. */
  predicate Truthy(field: Option<int>) {
    field.Some? && field.value != 0
  }
}
