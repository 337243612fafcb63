/** The few JavaScript string built-ins the wallet uses to build identifiers
    and signatures: `String.prototype.slice`, `toUpperCase` and
    `Number.prototype.toString(16)` on a non-negative integer. */
module JsText {

  function Min(a: nat, b: nat): nat {
    if a <= b then a else b
  }

  /** `s.slice(begin, end)` for non-negative bounds: both bounds are clamped to
      the length, and an empty range gives the empty string. */
  function Slice(s: string, begin: nat, end: nat): (r: string)
    ensures end <= begin ==> r == ""
    ensures begin <= end ==> |r| <= end - begin
    ensures begin <= end <= |s| ==> |r| == end - begin
    ensures begin <= end && begin < |s| ==> |r| == Min(end, |s|) - begin
    ensures |s| <= begin ==> r == ""
    ensures forall i :: 0 <= i < |r| ==> begin + i < |s| && r[i] == s[begin + i]
  {
    if end <= begin || |s| <= begin then "" else s[begin..Min(end, |s|)]
  }

  /** Upper-casing of one character; only the ASCII letters `a`..`z` change. */
  function UpperChar(c: char): char {
    if 'a' <= c <= 'z' then (c as int - 32) as char else c
  }

  predicate IsUpperAlnum(c: char) {
    '0' <= c <= '9' || 'A' <= c <= 'Z'
  }

  predicate IsLowerAlnum(c: char) {
    '0' <= c <= '9' || 'a' <= c <= 'z'
  }

  /** `s.toUpperCase()` on ASCII text: same length, each character upper-cased. */
  function ToUpper(s: string): (r: string)
    ensures |r| == |s|
    ensures forall i :: 0 <= i < |s| && IsLowerAlnum(s[i]) ==> IsUpperAlnum(r[i])
    ensures forall i :: 0 <= i < |s| && 'a' <= s[i] <= 'z' ==> r[i] as int == s[i] as int - 32
    ensures forall i :: 0 <= i < |s| && !('a' <= s[i] <= 'z') ==> r[i] == s[i]
  {
    seq(|s|, i requires 0 <= i < |s| => UpperChar(s[i]))
  }

  predicate IsHexDigit(c: char) {
    '0' <= c <= '9' || 'a' <= c <= 'f'
  }

  predicate IsHex(s: string) {
    forall i :: 0 <= i < |s| ==> IsHexDigit(s[i])
  }

  function HexDigit(d: nat): (c: char)
    requires d < 16
  {
    if d < 10 then ('0' as int + d) as char else ('a' as int + d - 10) as char
  }

  function DigitValue(c: char): (d: nat)
    requires IsHexDigit(c)
  {
    if c <= '9' then c as int - '0' as int else c as int - 'a' as int + 10
  }

  /** `n.toString(16)`: lower-case hexadecimal digits, most significant first,
      with no leading zero (so zero alone is written "0"). */
  function ToHex(n: nat): (r: string)
    ensures |r| >= 1
    ensures IsHex(r)
    ensures (r[0] == '0') == (n == 0)
    decreases n
  {
    if n < 16 then [HexDigit(n)] else ToHex(n / 16) + [HexDigit(n % 16)]
  }

  /** The value of a string of hexadecimal digits, read most significant first. */
  function FromHex(s: string): nat
    requires IsHex(s)
  {
    if s == [] then 0 else FromHex(s[..|s| - 1]) * 16 + DigitValue(s[|s| - 1])
  }

  /** Reading back what `toString(16)` wrote gives the number again, so the
      hexadecimal suffix of a signature determines the instant it encodes. */
  lemma {:induction false} HexRoundTrip(n: nat)
    ensures FromHex(ToHex(n)) == n
    decreases n
  {
    if n >= 16 {
      var h := ToHex(n / 16);
      var r := ToHex(n);
      assert r == h + [HexDigit(n % 16)];
      assert r[..|r| - 1] == h;
      HexRoundTrip(n / 16);
    }
  }

  /** Two different instants give two different hexadecimal strings. */
  lemma ToHexInjective(m: nat, n: nat)
    requires ToHex(m) == ToHex(n)
    ensures m == n
  {
    HexRoundTrip(m);
    HexRoundTrip(n);
  }
}
