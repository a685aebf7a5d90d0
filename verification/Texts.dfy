/** The string tests behind identity: substring, and the digit captures of the URL and host-id patterns. */
module Texts {
  import opened Records

  predicate IsDigit(c: char) { '0' <= c <= '9' }

  predicate AllDigits(s: string) {
    forall i :: 0 <= i < |s| ==> IsDigit(s[i])
  }

  predicate StartsWith(s: string, prefix: string) {
    |prefix| <= |s| && s[..|prefix|] == prefix
  }

  function LowerAscii(c: char): char {
    if 'A' <= c <= 'Z' then c - 'A' + 'a' else c
  }

  predicate StartsWithIgnoringCase(s: string, prefix: string) {
    |prefix| <= |s| && forall i :: 0 <= i < |prefix| ==> LowerAscii(s[i]) == LowerAscii(prefix[i])
  }

  predicate Contains(hay: string, needle: string) {
    exists i :: 0 <= i <= |hay| && StartsWith(hay[i..], needle)
  }

  /** The greedy capture of `\d+`, empty when there is none. */
  function DigitPrefix(s: string): (d: string)
    ensures d <= s && AllDigits(d)
  {
    if s == "" || !IsDigit(s[0]) then "" else [s[0]] + DigitPrefix(s[1..])
  }

  /** First occurrence of the marker (in any ASCII case) that is followed by digits: those digits. */
  function DigitsAfter(s: string, marker: string): Option<string> {
    if |s| < |marker| || s == "" then None
    else if StartsWithIgnoringCase(s, marker) && DigitPrefix(s[|marker|..]) != "" then Some(DigitPrefix(s[|marker|..]))
    else DigitsAfter(s[1..], marker)
  }

  lemma {:induction false} NoDigitsNoCapture(s: string, marker: string)
    requires forall c :: c in s ==> !IsDigit(c)
    ensures DigitsAfter(s, marker).None?
  {
    if |s| >= |marker| && s != "" {
      NoDigitsNoCapture(s[1..], marker);
    }
  }

  /** `^prefix(\d+)$`: the digits, when the whole string is the prefix followed by digits. */
  function DigitsOf(s: string, prefix: string): Option<string> {
    if StartsWith(s, prefix) && |s| > |prefix| && AllDigits(s[|prefix|..]) then Some(s[|prefix|..]) else None
  }

  /** The number a run of decimal digits stands for. */
  function ParseDigits(s: string): nat
    requires AllDigits(s)
  {
    if s == "" then 0 else 10 * ParseDigits(s[..|s| - 1]) + (s[|s| - 1] - '0') as nat
  }

  function AsSet<T(==)>(o: Option<T>): set<T> {
    if o.Some? then {o.value} else {}
  }

  /** The decimal digits of a number; reading them gives the number back. */
  function Print(n: nat): (s: string)
    ensures s != "" && AllDigits(s) && ParseDigits(s) == n
  {
    var digit := [(n % 10) as char + '0'];
    if n < 10 then assert digit[..0] == ""; digit else
      var front := Print(n / 10);
      assert (front + digit)[..|front|] == front;
      front + digit
  }

  /** White space as `trim` knows it. */
  predicate IsBlank(c: char) {
    '\t' <= c <= '\r' || c == ' ' || c == '\U{00a0}' || c == '\U{1680}' || '\U{2000}' <= c <= '\U{200a}'
    || c == '\U{2028}' || c == '\U{2029}' || c == '\U{202f}' || c == '\U{205f}' || c == '\U{3000}' || c == '\U{feff}'
  }

  function TrimStart(s: string): string {
    if s != "" && IsBlank(s[0]) then TrimStart(s[1..]) else s
  }

  /** `parseInt` in base ten: leading white space, a sign, digits; None for NaN. */
  function ParseInt(s: string): Option<int> {
    var t := TrimStart(s);
    var negative := t != "" && t[0] == '-';
    var digits := DigitPrefix(if t != "" && (t[0] == '-' || t[0] == '+') then t[1..] else t);
    var n: int := ParseDigits(digits);
    if digits == "" then None else Some(if negative then -n else n)
  }
}
