/** Natural numbers as decimal text. */
module Decimal {

  function Digit(n: nat): char
    requires n < 10
  {
    "0123456789"[n]
  }

  predicate DigitChar(c: char) {
    '0' <= c <= '9'
  }

  /** Decimal digits, padded with zeros to at least `w` places. */
  function Padded(n: nat, w: nat): string
    decreases n + w
  {
    if n == 0 && w == 0 then "" else Padded(n / 10, if w == 0 then 0 else w - 1) + [Digit(n % 10)]
  }

  /** The number that a string of digits writes. */
  function Number(s: string): nat {
    if s == "" then 0
    else if DigitChar(s[|s| - 1]) then 10 * Number(s[..|s| - 1]) + (s[|s| - 1] - '0') as nat
    else 0
  }

  function PowerOfTen(w: nat): nat {
    if w == 0 then 1 else 10 * PowerOfTen(w - 1)
  }

  lemma DigitReads(n: nat)
    requires n < 10
    ensures DigitChar(Digit(n)) && (Digit(n) - '0') as nat == n
  {
  }

  /** A number that fits fills exactly the width, with digits, and reads back. */
  lemma {:induction false} PaddedReads(n: nat, w: nat)
    requires n < PowerOfTen(w)
    ensures |Padded(n, w)| == w && (forall c :: c in Padded(n, w) ==> DigitChar(c)) && Number(Padded(n, w)) == n
    decreases w
  {
    if w > 0 {
      PaddedReads(n / 10, w - 1);
      DigitReads(n % 10);
      assert Padded(n, w) == Padded(n / 10, w - 1) + [Digit(n % 10)];
      assert Padded(n, w)[..w - 1] == Padded(n / 10, w - 1);
    }
  }

  /** Without padding beyond `k` places a number below the `k`-th power of ten has at most `k`. */
  lemma {:induction false} PaddedAtMost(n: nat, w: nat, k: nat)
    requires n < PowerOfTen(k) && w <= k
    ensures |Padded(n, w)| <= k
    decreases k
  {
    if k > 0 && !(n == 0 && w == 0) { PaddedAtMost(n / 10, if w == 0 then 0 else w - 1, k - 1); }
  }

  const WORD_LIMIT := 0x1_0000_0000_0000_0000

  lemma PowersMultiply(a: nat, b: nat, x: nat, y: nat)
    requires PowerOfTen(a) == x && PowerOfTen(b) == y
    ensures PowerOfTen(a + b) == x * y
    decreases b
  {
    if b > 0 {
      PowersMultiply(a, b - 1, x, PowerOfTen(b - 1));
      assert x * y == 10 * (x * PowerOfTen(b - 1));
    }
  }

  /** A 64-bit number has at most 20 digits. */
  lemma WordDigits(n: nat)
    requires n < WORD_LIMIT
    ensures |Padded(n, 1)| <= 20
  {
    hide Padded;
    assert PowerOfTen(1) == 10 && PowerOfTen(2) == 100 && PowerOfTen(3) == 1000;
    assert PowerOfTen(5) == 100_000 by { assert PowerOfTen(4) == 10_000; }
    hide PowerOfTen;
    PowersMultiply(5, 5, 100_000, 100_000);
    PowersMultiply(10, 10, 10_000_000_000, 10_000_000_000);
    PaddedAtMost(n, 1, 20);
  }
}
