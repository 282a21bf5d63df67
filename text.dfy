/** Decimal formatting of integers and Python-style slices, as the
    f-strings and slice expressions of the lab service use them. */
module Text {

  predicate IsDigit(c: char) { '0' <= c <= '9' }

  predicate AllDigits(s: string) { forall i :: 0 <= i < |s| ==> IsDigit(s[i]) }

  function DigitChar(d: nat): (c: char)
    requires d < 10
    ensures IsDigit(c) && c as int - '0' as int == d
  {
    ('0' as int + d) as char
  }

  function DigitValue(c: char): nat
    requires IsDigit(c)
  {
    c as int - '0' as int
  }

  /** Python's `str(n)` (and `f"{n}"`) for a non-negative integer. */
  function DecimalString(n: nat): (s: string)
    ensures |s| >= 1 && AllDigits(s)
    ensures |s| > 1 ==> s[0] != '0'
    decreases n
  {
    if n < 10 then [DigitChar(n)] else DecimalString(n / 10) + [DigitChar(n % 10)]
  }

  /** The value a string of decimal digits denotes. */
  function ParseDecimal(s: string): nat
    requires AllDigits(s)
    decreases |s|
  {
    if s == [] then 0 else ParseDecimal(s[..|s| - 1]) * 10 + DigitValue(s[|s| - 1])
  }

  /** Formatting a number and reading it back gives the number. */
  lemma {:induction false} ParseDecimalString(n: nat)
    ensures ParseDecimal(DecimalString(n)) == n
    decreases n
  {
    if n >= 10 {
      var s := DecimalString(n);
      assert s[..|s| - 1] == DecimalString(n / 10);
      ParseDecimalString(n / 10);
    }
  }

  function Pow10(k: nat): (p: nat)
    ensures p >= 1
  {
    if k == 0 then 1 else 10 * Pow10(k - 1)
  }

  lemma Pow10Values()
    ensures Pow10(2) == 100 && Pow10(3) == 1000 && Pow10(4) == 10000
  {
    assert Pow10(1) == 10;
    assert Pow10(2) == 100;
    assert Pow10(3) == 1000;
  }

  /** A number in [10^(k-1), 10^k) is written with exactly k digits. */
  lemma {:induction false} DecimalStringLength(n: nat, k: nat)
    requires 1 <= k && Pow10(k - 1) <= n < Pow10(k)
    ensures |DecimalString(n)| == k
    decreases k
  {
    if k > 1 {
      assert Pow10(k - 1) == 10 * Pow10(k - 2);
      assert n >= 10;
      assert Pow10(k - 2) <= n / 10 < Pow10(k - 1);
      DecimalStringLength(n / 10, k - 1);
    }
  }

  /** Python's `s[:n]`: the first n elements, or all of them when there are fewer. */
  function Prefix<T>(s: seq<T>, n: nat): (r: seq<T>)
    ensures |r| == if |s| <= n then |s| else n
    ensures r == s[..|r|]
  {
    if |s| <= n then s else s[..n]
  }

  lemma PrefixOfShort<T>(s: seq<T>, n: nat)
    requires |s| <= n
    ensures Prefix(s, n) == s
  {
  }

  lemma SlicesOf<T>(s: seq<T>, n: nat)
    requires 1 <= n <= |s|
    ensures Prefix(s, n) == s[..n] && Suffix(s, n) == s[|s| - n..]
  {
  }

  /** Python's `s[-n:]` for n >= 1: the last n elements in their original
      order, or all of them when there are fewer. */
  function Suffix<T>(s: seq<T>, n: nat): (r: seq<T>)
    requires n >= 1
    ensures |r| == if |s| <= n then |s| else n
    ensures s == s[..|s| - |r|] + r
  {
    if |s| <= n then s else s[|s| - n..]
  }

  lemma AppendAssociative<T>(a: seq<T>, b: seq<T>, c: seq<T>)
    ensures (a + b) + c == a + (b + c)
  {
  }
}
