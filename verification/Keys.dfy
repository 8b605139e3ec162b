/** The keys of Source/Speechly/Public/Speechly.h: the audio context, a dash,
  the segment id in decimal. */
module Keys {

  function Digit(d: nat): char
    requires d < 10
  {
    ('0' as int + d) as char
  }

  function Digits(n: nat): string {
    if n < 10 then [Digit(n)] else Digits(n / 10) + [Digit(n % 10)]
  }

  /** What %i prints. */
  function Print(n: int): string { if n < 0 then "-" + Digits(-n) else Digits(n) }

  function Key(context: string, segment: int): string { context + "-" + Print(segment) }

  lemma {:induction false} DigitsAreDigits(n: nat)
    ensures |Digits(n)| > 0 && forall i :: 0 <= i < |Digits(n)| ==> '0' <= Digits(n)[i] <= '9'
  {
    if n >= 10 { DigitsAreDigits(n / 10); }
  }

  lemma {:induction false} DigitsInjective(m: nat, n: nat)
    requires Digits(m) == Digits(n)
    ensures m == n
  {
    var s := Digits(m);
    DigitsAreDigits(m / 10);
    DigitsAreDigits(n / 10);
    if m >= 10 && n >= 10 {
      assert Digits(m / 10) == s[..|s| - 1] == Digits(n / 10);
      assert Digit(m % 10) == s[|s| - 1] == Digit(n % 10);
      DigitsInjective(m / 10, n / 10);
    }
  }

  lemma NoDashAfterContext(c: string, n: nat, i: nat)
    requires |c| < i < |Key(c, n)|
    ensures Key(c, n)[i] != '-'
  {
    DigitsAreDigits(n);
    assert Key(c, n)[i] == Digits(n)[i - |c| - 1];
  }

  /** The printed number is what follows the last dash. */
  lemma NatKeyInjective(c1: string, n1: nat, c2: string, n2: nat)
    requires Key(c1, n1) == Key(c2, n2)
    ensures c1 == c2 && n1 == n2
  {
    var k := Key(c1, n1);
    assert k[|c1|] == '-' == k[|c2|];
    if |c1| < |c2| { NoDashAfterContext(c1, n1, |c2|); }
    if |c2| < |c1| { NoDashAfterContext(c2, n2, |c1|); }
    assert c1 == k[..|c1|] == c2;
    assert Digits(n1) == k[|c1| + 1..] == Digits(n2);
    DigitsInjective(n1, n2);
  }

  /** A negative segment id moves its sign into the context. */
  lemma NegativeKey(c: string, n: int)
    requires n < 0
    ensures Key(c, n) == Key(c + "-", -n)
  {
    assert c + "-" + ("-" + Digits(-n)) == c + "-" + "-" + Digits(-n);
  }

  /** Exactly when two messages share a key: the same context and segment, or
      contexts one dash apart with opposite segments. Without negative segments
      keys are injective. */
  lemma KeysCollideExactlyWhen(c1: string, n1: int, c2: string, n2: int)
    ensures Key(c1, n1) == Key(c2, n2) <==>
      || (c1 == c2 && n1 == n2)
      || (n1 < 0 && n2 == -n1 && c2 == c1 + "-")
      || (n2 < 0 && n1 == -n2 && c1 == c2 + "-")
  {
    var (d1, m1) := if n1 < 0 then (c1 + "-", -n1) else (c1, n1);
    var (d2, m2) := if n2 < 0 then (c2 + "-", -n2) else (c2, n2);
    if n1 < 0 { NegativeKey(c1, n1); }
    if n2 < 0 { NegativeKey(c2, n2); }
    if Key(c1, n1) == Key(c2, n2) {
      NatKeyInjective(d1, m1, d2, m2);
      if n1 < 0 && n2 < 0 {
        assert c1 == d1[..|d1| - 1] == c2;
      }
    }
  }

  // ---- How a key reads ----

  /** The number a row of decimal digits stands for, the first being worth most. */
  function Value(digits: string): int {
    if |digits| == 0 then 0 else 10 * Value(digits[..|digits| - 1]) + (digits[|digits| - 1] as int - '0' as int)
  }

  lemma {:induction false} DigitsRead(n: nat)
    ensures Value(Digits(n)) == n
    ensures n > 0 ==> Digits(n)[0] != '0'
  {
    var s := Digits(n);
    if n < 10 {
      assert s[..|s| - 1] == [];
    } else {
      DigitsRead(n / 10);
      DigitsAreDigits(n / 10);
      assert s[..|s| - 1] == Digits(n / 10);
    }
  }

  /** A key is the context, a dash, a minus sign if the segment is negative, and
      the segment in decimal, without leading zeros. */
  lemma KeyReads(c: string, n: int)
    ensures var key, sign := Key(c, n), if n < 0 then "-" else "";
      && |key| > |c| + 1 + |sign|
      && key[..|c| + 1 + |sign|] == c + "-" + sign
      && Value(key[|c| + 1 + |sign|..]) == (if n < 0 then -n else n)
      && (n != 0 ==> key[|c| + 1 + |sign|] != '0')
  {
    var m: nat := if n < 0 then -n else n;
    DigitsRead(m);
    DigitsAreDigits(m);
    var sign := if n < 0 then "-" else "";
    assert Key(c, n) == c + "-" + sign + Digits(m);
    assert Key(c, n)[|c| + 1 + |sign|..] == Digits(m);
  }
}
