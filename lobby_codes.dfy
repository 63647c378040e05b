/**
 * Decimal rendering of naturals and the four-digit lobby codes of
 * `generateLobbyCode` (`String(Math.floor(1000 + Math.random() * 9000))`),
 * which both lobby-service copies share. The random part is a caller-supplied
 * draw in [0, 9000).
 */
module LobbyCodes {

  predicate IsDigit(c: char) {
    '0' <= c <= '9'
  }

  predicate AllDigits(s: string) {
    forall k :: 0 <= k < |s| ==> IsDigit(s[k])
  }

  function DigitChar(d: nat): (c: char)
    requires d < 10
    ensures IsDigit(c)
  {
    "0123456789"[d]
  }

  function DigitValue(c: char): (d: nat)
    requires IsDigit(c)
    ensures d < 10
  {
    (c as int - '0' as int) as nat
  }

  /** `String(n)` for a natural number: its decimal digits, no leading zero. */
  function ToDecimal(n: nat): (s: string)
    decreases n
  {
    if n < 10 then [DigitChar(n)] else ToDecimal(n / 10) + [DigitChar(n % 10)]
  }

  /** The value of a string of decimal digits (used to state that `ToDecimal` loses nothing). */
  function ParseDecimal(s: string): nat
    requires AllDigits(s)
  {
    if s == [] then 0 else ParseDecimal(s[..|s| - 1]) * 10 + DigitValue(s[|s| - 1])
  }

  /** Rendering then parsing gives the number back, so distinct numbers give distinct strings. */
  lemma {:induction false} ParseToDecimal(n: nat)
    ensures AllDigits(ToDecimal(n))
    ensures ParseDecimal(ToDecimal(n)) == n
    decreases n
  {
    if n >= 10 {
      ParseToDecimal(n / 10);
      var s := ToDecimal(n);
      assert s[..|s| - 1] == ToDecimal(n / 10);
      assert DigitValue(DigitChar(n % 10)) == n % 10;
    }
  }

  /** `generateLobbyCode` with the sample `Math.floor(Math.random() * 9000)` supplied as `draw`. */
  function GenerateLobbyCode(draw: nat): (code: string)
    requires draw < 9000
    ensures |code| == 4 && AllDigits(code) && code[0] != '0'
    ensures ParseDecimal(code) == 1000 + draw
  {
    ParseToDecimal(1000 + draw);
    FourDigits(1000 + draw);
    ToDecimal(1000 + draw)
  }

  lemma FourDigits(n: nat)
    requires 1000 <= n <= 9999
    ensures |ToDecimal(n)| == 4 && ToDecimal(n)[0] != '0'
  {
    var a, b, c := n / 10, n / 100, n / 1000;
    assert 100 <= a <= 999 && a / 10 == b;
    assert 10 <= b <= 99 && b / 10 == c;
    assert 1 <= c <= 9;
    assert ToDecimal(c) == [DigitChar(c)];
    assert ToDecimal(b) == ToDecimal(c) + [DigitChar(b % 10)];
    assert ToDecimal(a) == ToDecimal(b) + [DigitChar(a % 10)];
  }

  /** A code produced by `generateLobbyCode`: four decimal digits, the first not `0`. */
  predicate IsGeneratedCode(s: string) {
    |s| == 4 && AllDigits(s) && s[0] != '0'
  }

  /** Two draws give the same code only when they are the same draw. */
  lemma GeneratedCodesDistinct(a: nat, b: nat)
    requires a < 9000 && b < 9000 && a != b
    ensures GenerateLobbyCode(a) != GenerateLobbyCode(b)
  {
  }
}
