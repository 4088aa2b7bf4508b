/** Names made new by a number. */
module Numbering {
  import opened Names

  const DIGITS := "0123456789"

  function Digits(n: nat): string {
    (if n < 10 then [] else Digits(n / 10)) + [DIGITS[n % 10]]
  }

  lemma DigitsEnd(n: nat)
    ensures var r := Digits(n);
            |r| > 0 && r[|r| - 1] == DIGITS[n % 10] && r[..|r| - 1] == (if n < 10 then [] else Digits(n / 10))
  {
  }

  lemma {:induction false} DigitsLower(n: nat)
    ensures Lower(Digits(n)) == Digits(n)
  {
    if n >= 10 { DigitsLower(n / 10); }
    assert LowerChar(DIGITS[n % 10]) == DIGITS[n % 10];
  }

  lemma {:induction false} DigitsInjective(m: nat, n: nat)
    requires Digits(m) == Digits(n)
    ensures m == n
  {
    hide Digits;
    DigitsEnd(m);
    DigitsEnd(n);
    DigitAt(m % 10, n % 10);
    if m >= 10 { DigitsEnd(m / 10); }
    if n >= 10 { DigitsEnd(n / 10); }
    if m >= 10 && n >= 10 { DigitsInjective(m / 10, n / 10); }
  }

  lemma DigitAt(i: nat, j: nat)
    requires i < 10 && j < 10 && DIGITS[i] == DIGITS[j]
    ensures i == j
  {
  }

  /** A decimal numeral, without leading zeros. */
  predicate Numeral(s: string) {
    s != "" && AllDigits(s) && (|s| > 1 ==> s[0] != '0')
  }

  predicate AllDigits(s: string) {
    forall i | 0 <= i < |s| :: '0' <= s[i] <= '9'
  }

  function DigitOf(c: char): int {
    c as int - '0' as int
  }

  /** What it stands for. */
  function ValueOf(s: string): int {
    if s == "" then 0 else 10 * ValueOf(s[..|s| - 1]) + DigitOf(s[|s| - 1])
  }

  lemma DigitIs(d: nat)
    requires d < 10
    ensures '0' <= DIGITS[d] <= '9' && DigitOf(DIGITS[d]) == d && (DIGITS[d] == '0' <==> d == 0)
  {
  }

  lemma IsDigit(c: char)
    requires '0' <= c <= '9'
    ensures 0 <= DigitOf(c) < 10 && DIGITS[DigitOf(c)] == c
  {
  }

  lemma ValueStep(s: string, c: char)
    ensures ValueOf(s + [c]) == 10 * ValueOf(s) + DigitOf(c)
  {
    assert (s + [c])[..|s|] == s;
  }

  lemma DigitsStep(n: nat, d: nat)
    requires d < 10
    ensures Digits(10 * n + d) == (if n == 0 then [] else Digits(n)) + [DIGITS[d]]
  {
    assert (10 * n + d) / 10 == n && (10 * n + d) % 10 == d;
  }

  lemma {:induction false} DigitsRead(n: nat)
    ensures Numeral(Digits(n)) && ValueOf(Digits(n)) == n && (n > 0 ==> Digits(n)[0] != '0')
  {
    hide Digits, ValueOf, DigitOf;
    var m, d := n / 10, n % 10;
    DigitsStep(m, d);
    DigitIs(d);
    if m > 0 { DigitsRead(m); } else { NoValue(); }
    ValueStep(if m == 0 then [] else Digits(m), DIGITS[d]);
  }

  lemma NoValue()
    ensures ValueOf("") == 0
  {
  }

  lemma {:induction false} NumeralValue(s: string)
    requires Numeral(s)
    ensures ValueOf(s) >= 0 && (s[0] != '0' ==> ValueOf(s) > 0) && Digits(ValueOf(s)) == s
  {
    hide Digits, ValueOf, DigitOf, DIGITS;
    var last, rest := s[|s| - 1], s[..|s| - 1];
    assert s == rest + [last];
    IsDigit(last);
    DigitIs(DigitOf(last));
    ValueStep(rest, last);
    if rest == "" { NoValue(); } else { NumeralValue(rest); }
    DigitsStep(ValueOf(rest), DigitOf(last));
  }

  /** The digits of a number are the one decimal numeral that stands for it. */
  lemma DigitsExactly(n: nat, s: string)
    ensures Digits(n) == s <==> Numeral(s) && ValueOf(s) == n
  {
    DigitsRead(n);
    if Numeral(s) { NumeralValue(s); }
  }

  /** The name itself, and then the name with a number before its extension. */
  function Numbered(stem: string, extension: string, number: nat): string {
    if number <= 1 then stem + extension else stem + "_" + Digits(number) + extension
  }

  lemma FirstName(stem: string, extension: string)
    ensures Numbered(stem, extension, 1) == stem + extension
    ensures extension == "" ==> Numbered(stem, extension, 1) == stem
  {
  }

  lemma NextName(stem: string, extension: string, number: nat)
    requires number >= 2
    ensures Numbered(stem, extension, number) == stem + "_" + Digits(number) + extension
    ensures extension == "" ==> Numbered(stem, extension, number) == stem + "_" + Digits(number)
  {
    hide Digits;
  }

  lemma LowerNumbered(stem: string, number: nat)
    ensures Lower(Numbered(stem, "", number)) == Numbered(Lower(stem), "", number)
  {
    hide Digits;
    if number > 1 {
      DigitsLower(number);
      LowerJoin(stem + "_", Digits(number));
      LowerJoin(stem, "_");
      assert Lower("_") == "_";
    }
    assert stem + "" == stem && Lower(stem) + "" == Lower(stem);
  }

  lemma LowerJoin(a: string, b: string)
    ensures Lower(a + b) == Lower(a) + Lower(b)
  {
  }

  lemma NumbersDiffer(stem: string, extension: string, m: nat, n: nat)
    requires 1 <= m < n
    ensures Numbered(stem, extension, m) != Numbered(stem, extension, n)
  {
    hide Digits;
    if m > 1 {
      Between(stem + "_", Digits(m), extension);
      Between(stem + "_", Digits(n), extension);
      if Numbered(stem, extension, m) == Numbered(stem, extension, n) { DigitsInjective(m, n); assert false; }
    }
  }

  lemma Between(a: string, b: string, c: string)
    ensures (a + b + c)[|a|..|a + b + c| - |c|] == b
  {
  }

  ghost function Tried(stem: string, extension: string, number: nat): set<string> {
    set i | 1 <= i < number :: Numbered(stem, extension, i)
  }

  lemma TriedNext(stem: string, extension: string, number: nat)
    requires number >= 1
    ensures Numbered(stem, extension, number) !in Tried(stem, extension, number)
    ensures Tried(stem, extension, number + 1) == Tried(stem, extension, number) + {Numbered(stem, extension, number)}
  {
    hide Numbered;
    forall i | 1 <= i < number ensures Numbered(stem, extension, i) != Numbered(stem, extension, number) {
      NumbersDiffer(stem, extension, i, number);
    }
  }

  lemma {:induction false} TriedSize(stem: string, extension: string, number: nat)
    requires number >= 1
    ensures |Tried(stem, extension, number)| == number - 1
  {
    hide Numbered;
    if number > 1 {
      TriedSize(stem, extension, number - 1);
      TriedNext(stem, extension, number - 1);
    }
  }

  /** Only so many numbers can be taken. */
  lemma TriedAll(taken: set<string>, stem: string, extension: string, number: nat)
    requires number >= 1 && forall i | 1 <= i < number :: Numbered(stem, extension, i) in taken
    ensures number - 1 <= |taken|
  {
    hide Numbered;
    TriedSize(stem, extension, number);
    SubsetSize(Tried(stem, extension, number), taken);
  }
}
