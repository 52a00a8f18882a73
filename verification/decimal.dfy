/** Printing a counter in decimal. */
module Decimal {
  import opened Prelude

  predicate IsDigit(c: char) { '0' <= c <= '9' }

  predicate Digits(s: string) { forall i :: 0 <= i < |s| ==> IsDigit(s[i]) }

  /** The number a string of digits stands for. */
  function Value(s: string): nat
    requires Digits(s)
  {
    if s == "" then 0 else Value(s[..|s| - 1]) * 10 + (s[|s| - 1] - '0') as int
  }

  /** A number written without leading zeros. */
  predicate Canonical(s: string) { s != "" && Digits(s) && (s[0] == '0' ==> |s| == 1) }

  function Pow10(n: nat): nat { if n == 0 then 1 else 10 * Pow10(n - 1) }

  lemma {:induction false} ValuePrepend(c: char, s: string)
    requires IsDigit(c) && Digits(s)
    ensures Digits([c] + s) && Value([c] + s) == (c - '0') as int * Pow10(|s|) + Value(s)
    decreases |s|
  {
    var whole := [c] + s;
    if s == "" {
      assert whole[..0] == "";
    } else {
      var n := |s| - 1;
      ValuePrepend(c, s[..n]);
      assert whole[..n + 1] == [c] + s[..n] && whole[n + 1] == s[n];
      Shift((c - '0') as int, Pow10(n), Value(s[..n]));
    }
  }

  lemma Shift(d: int, p: int, v: int)
    ensures (d * p + v) * 10 == d * (10 * p) + v * 10
  {
  }

  /** Two ways of writing the same number without leading zeros are the same. */
  lemma {:induction false} CanonicalUnique(a: string, b: string)
    requires Canonical(a) && Canonical(b) && Value(a) == Value(b)
    ensures a == b
    decreases |a|
  {
    var m, n := |a| - 1, |b| - 1;
    assert Value(a) / 10 == Value(a[..m]) && Value(b) / 10 == Value(b[..n]);
    assert a[m] == b[n];
    CanonicalPositive(a);
    CanonicalPositive(b);
    if m > 0 && n > 0 {
      CanonicalUnique(a[..m], b[..n]);
      assert a == a[..m] + [a[m]] && b == b[..n] + [b[n]];
    } else if m > 0 {
      CanonicalPositive(a[..m]);
    } else if n > 0 {
      CanonicalPositive(b[..n]);
    }
  }

  lemma {:induction false} CanonicalPositive(s: string)
    requires Canonical(s)
    ensures s != "0" ==> Value(s) > 0
    decreases |s|
  {
    if |s| > 1 {
      CanonicalPositive(s[..|s| - 1]);
    } else {
      assert s[..0] == "";
    }
  }

  /** itoa: fills a 20-byte buffer from the right. */
  method Itoa(n: nat) returns (s: string)
    requires n < TWO_64
    ensures Canonical(s) && Value(s) == n && |s| <= 20
  {
    if n == 0 {
      assert "0"[..0] == "";
      return "0";
    }
    var buf := new char[20];
    var i, rest := 20, n;
    ghost var written := "";
    TwentyDigits();
    assert 0 * Pow10(0) == 0 && n * Pow10(0) == n;
    while rest > 0
      invariant 0 <= i <= 20 && 0 <= rest < Pow10(i) && (rest == 0 ==> i < 20)
      invariant buf[i..] == written && Digits(written) && n == rest * Pow10(|written|) + Value(written)
      invariant rest == 0 ==> written[0] != '0'
      decreases rest
    {
      i := i - 1;
      buf[i] := Digit(rest);
      DigitWritten(n, rest, written);
      written := [Digit(rest)] + written;
      assert buf[i..] == written;
      rest := rest / 10;
    }
    s := buf[i..];
  }

  function Digit(rest: nat): char { '0' + (rest % 10) as char }

  lemma DigitWritten(n: nat, rest: nat, written: string)
    requires rest > 0 && Digits(written) && n == rest * Pow10(|written|) + Value(written)
    ensures var more := [Digit(rest)] + written;
            Digits(more) && n == (rest / 10) * Pow10(|more|) + Value(more) && (rest < 10 ==> more[0] != '0')
  {
    ValuePrepend(Digit(rest), written);
    DigitMoves(rest, Pow10(|written|));
  }

  lemma DigitMoves(rest: nat, p: int)
    ensures rest * p == (rest / 10) * (10 * p) + (rest % 10) * p
  {
    var q, r := rest / 10, rest % 10;
    assert rest * p == (10 * q + r) * p;
  }

  lemma TwentyDigits()
    ensures Pow10(20) == 100_000_000_000_000_000_000
  {
    assert Pow10(5) == 100_000;
    assert Pow10(10) == 10_000_000_000;
    assert Pow10(15) == 1_000_000_000_000_000;
  }
}
