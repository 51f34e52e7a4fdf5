/** Decimal printing and parsing as Go's strconv.Itoa and strconv.Atoi do it on
    a 64-bit platform. */
module Decimal {
  import opened Common

  predicate IsDigit(c: char) { '0' <= c <= '9' }

  predicate AllDigits(s: string) { forall i :: 0 <= i < |s| ==> IsDigit(s[i]) }

  function DigitValue(c: char): (d: nat)
    requires IsDigit(c)
    ensures d < 10
  {
    c as int - '0' as int
  }

  function DigitChar(d: nat): (c: char)
    requires d < 10
    ensures IsDigit(c) && DigitValue(c) == d
  {
    (d + '0' as int) as char
  }

  function Digits(n: nat): (s: string)
    ensures s != [] && AllDigits(s)
    ensures |s| > 1 ==> s[0] != '0'
    ensures s[0] == '0' ==> n == 0
  {
    if n < 10 then [DigitChar(n)] else Digits(n / 10) + [DigitChar(n % 10)]
  }

  function Value(s: string): nat
    requires AllDigits(s)
  {
    if s == [] then 0 else 10 * Value(s[..|s| - 1]) + DigitValue(s[|s| - 1])
  }

  lemma {:induction false} ValueOfDigits(n: nat)
    ensures Value(Digits(n)) == n
  {
    if n >= 10 {
      ValueOfDigits(n / 10);
      assert Digits(n)[..|Digits(n)| - 1] == Digits(n / 10);
    }
  }

  function Itoa(i: int): (s: string)
    ensures s != []
    ensures i >= 0 ==> AllDigits(s)
    ensures i < 0 ==> s[0] == '-'
  {
    if i < 0 then "-" + Digits(-i) else Digits(i)
  }

  /** The text after an optional sign. */
  function Unsigned(s: string): string {
    if s != [] && (s[0] == '-' || s[0] == '+') then s[1..] else s
  }

  /** None is Go's error return: a syntax error, or a value outside int64. */
  function Atoi(s: string): Option<int> {
    var body := Unsigned(s);
    if body == [] || !AllDigits(body) then None
    else
      var magnitude: int := Value(body);
      var v := if s[0] == '-' then -magnitude else magnitude;
      if MIN_INT64 <= v <= MAX_INT64 then Some(v) else None
  }

  /** The text is an optional sign and some digits, and stands for v. */
  ghost predicate Denotes(s: string, body: string, v: int) {
    && body != "" && AllDigits(body)
    && (((s == body || s == "+" + body) && v == Value(body)) || (s == "-" + body && v + Value(body) == 0))
  }

  ghost predicate IsInt64Text(s: string) {
    exists body, v :: Denotes(s, body, v) && MIN_INT64 <= v <= MAX_INT64
  }

  /** Exactly the texts of int64 numbers are accepted, with the number they stand for. */
  lemma AtoiDecided(s: string)
    ensures Atoi(s).Some? <==> IsInt64Text(s)
    ensures Atoi(s).Some? ==> Denotes(s, Unsigned(s), Atoi(s).value)
    ensures forall body, v :: Denotes(s, body, v) && MIN_INT64 <= v <= MAX_INT64 ==> Atoi(s) == Some(v)
  {
    if Atoi(s).Some? {
      assert s[0] == '-' ==> s == "-" + Unsigned(s);
      assert s[0] == '+' ==> s == "+" + Unsigned(s);
      assert Denotes(s, Unsigned(s), Atoi(s).value);
    }
    forall body, v | Denotes(s, body, v) && MIN_INT64 <= v <= MAX_INT64 ensures Atoi(s) == Some(v) {
      assert IsDigit(body[0]);
      assert Unsigned(s) == body;
    }
  }

  /** Parsing undoes printing on every int64. */
  lemma AtoiItoa(i: int)
    requires MIN_INT64 <= i <= MAX_INT64
    ensures Atoi(Itoa(i)) == Some(i)
  {
    var magnitude := if i < 0 then -i else i;
    ValueOfDigits(magnitude);
    assert IsDigit(Digits(magnitude)[0]);
    assert Unsigned(Itoa(i)) == Digits(magnitude);
  }

  lemma ItoaInjective(i: nat, j: nat)
    requires Itoa(i) == Itoa(j)
    ensures i == j
  {
    ValueOfDigits(i);
    ValueOfDigits(j);
  }

  /** The dash before a printed index is the last one. */
  lemma LastDash(base: string, i: nat, s: string)
    requires s == base + "-" + Itoa(i)
    ensures s[|base|] == '-'
    ensures forall k :: |base| < k < |s| ==> s[k] != '-'
  {
    forall k | |base| < k < |s| ensures s[k] != '-' {
      assert s[k] == Itoa(i)[k - |base| - 1];
    }
  }

  /** "<base>-<index>" can be read back in one way only: the digits after the
      last dash are the index. */
  lemma DashedUnique(a: string, i: nat, b: string, j: nat)
    requires a + "-" + Itoa(i) == b + "-" + Itoa(j)
    ensures a == b && i == j
  {
    var s, t := a + "-" + Itoa(i), b + "-" + Itoa(j);
    LastDash(a, i, s);
    LastDash(b, j, t);
    assert |a| == |b|;
    assert s[..|a|] == a && t[..|b|] == b;
    assert s[|a| + 1..] == Itoa(i) && t[|b| + 1..] == Itoa(j);
    ItoaInjective(i, j);
  }
}
