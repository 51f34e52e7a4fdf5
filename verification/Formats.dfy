/** Scaling a byte count to its unit and splitting seconds into a clock time, on
    int64. */
module Formats {
  import opened Common
  import opened Decimal
  import opened GoStrings

  const SI := 1000
  const IEC := 1024

  /** The divisor and the index of the unit letter; None is the plain byte form. */
  datatype Scale = Scale(div: int, exp: nat)

  /** div is the power of the unit one above the letter's index, the largest one not
      above b; the letter exists and div fits int64. */
  ghost predicate IsScaleOf(s: Scale, b: int, unit: nat) {
    && s.exp < |"KMGTPE"| && s.div == Pow(unit, s.exp + 1)
    && s.div <= b < unit * s.div && s.div <= MAX_INT64
  }

  lemma ScaleStep(b: int, n: int, div: int, unit: int)
    requires unit > 0 && div > 0 && n * div <= b < (n + 1) * div
    ensures (n / unit) * (div * unit) <= b < (n / unit + 1) * (div * unit)
  {
    var m, r := n / unit, n % unit;
    assert n == m * unit + r;
    assert m * (div * unit) == (m * unit) * div <= n * div by { Monotone(m * unit, n, div); }
    assert (m + 1) * (div * unit) == (m * unit + unit) * div;
    assert (n + 1) * div <= (m * unit + unit) * div by { Monotone(n + 1, m * unit + unit, div); }
  }

  lemma Monotone(x: int, y: int, k: int)
    requires x <= y && k > 0
    ensures x * k <= y * k
  {
  }

  lemma TooLarge(unit: nat)
    requires unit == SI || unit == IEC
    ensures unit * Pow(unit, 6) > MAX_INT64
  {
    if unit == SI {
      assert Pow(1000, 6) == 1000000000000000000;
    } else {
      assert Pow(1024, 6) == 1152921504606846976;
    }
  }

  /** The scaling loop of ByteCountSI and ByteCountIEC. */
  method ByteCount(b: int, unit: nat) returns (scale: Option<Scale>)
    requires MIN_INT64 <= b <= MAX_INT64
    requires unit == SI || unit == IEC
    ensures scale.None? <==> b < unit
    ensures scale.Some? ==> IsScaleOf(scale.value, b, unit)
  {
    if b < unit {
      return None;
    }
    var div: int, exp := unit, 0;
    var n := b / unit;
    TooLarge(unit);
    assert Pow(unit, 1) == unit * Pow(unit, 0);
    while n >= unit
      invariant exp <= 5 && div == Pow(unit, exp + 1) && 0 < div <= b
      invariant n * div <= b < (n + 1) * div
      decreases n
    {
      ScaleStep(b, n, div, unit);
      assert div * unit <= b by { assert unit * div <= n * div by { Monotone(unit, n, div); } }
      assert exp < 5;
      div := div * unit;
      exp := exp + 1;
      n := n / unit;
    }
    assert (n + 1) * div <= unit * div by { Monotone(n + 1, unit, div); }
    return Some(Scale(div, exp));
  }

  /** There is only one such scale. */
  lemma {:induction false} ScaleUnique(s: Scale, t: Scale, b: int, unit: nat)
    requires unit == SI || unit == IEC
    requires IsScaleOf(s, b, unit) && IsScaleOf(t, b, unit)
    ensures s == t
  {
    if s.exp < t.exp {
      PowMonotone(unit, s.exp + 2, t.exp + 1);
    } else if t.exp < s.exp {
      PowMonotone(unit, t.exp + 2, s.exp + 1);
    }
  }

  lemma {:induction false} PowMonotone(unit: nat, i: nat, j: nat)
    requires unit >= 1 && i <= j
    ensures 1 <= Pow(unit, i) <= Pow(unit, j)
  {
    if i == j {
      if i > 0 {
        PowMonotone(unit, i - 1, i - 1);
      }
    } else {
      PowMonotone(unit, i, j - 1);
    }
  }

  // ----- clock times

  /** "%02d": at least two characters, the sign included. */
  function TwoDigits(x: int): (s: string)
    ensures ':' !in s
  {
    if 0 <= x < 10 then "0" + Digits(x) else Itoa(x)
  }

  function Hours(s: int): int { GoDiv(s, 3600) }
  function Minutes(s: int): int { GoMod(GoDiv(s, 60), 60) }
  function Seconds(s: int): int { GoMod(s, 60) }

  /** The fields recombine to the seconds; they have the sign of the count, and minutes
      and seconds stay below 60 in size. */
  lemma ClockFields(s: int)
    ensures Hours(s) * 3600 + Minutes(s) * 60 + Seconds(s) == s
    ensures s >= 0 ==> Hours(s) >= 0 && 0 <= Minutes(s) < 60 && 0 <= Seconds(s) < 60
    ensures s <= 0 ==> Hours(s) <= 0 && -60 < Minutes(s) <= 0 && -60 < Seconds(s) <= 0
  {
    if s >= 0 {
      SixtySixty(s);
    } else {
      SixtySixty(-s);
    }
  }

  lemma SixtySixty(s: nat)
    ensures s / 3600 == s / 60 / 60
    ensures s / 3600 * 3600 + s / 60 % 60 * 60 + s % 60 == s
  {
    var m := s / 60;
    assert s == 60 * m + s % 60;
    assert m == 60 * (m / 60) + m % 60;
  }

  function TimeFormat(s: int): string {
    TwoDigits(Hours(s)) + ":" + TwoDigits(Minutes(s)) + ":" + TwoDigits(Seconds(s))
  }

  /** A field is padded to two characters. */
  lemma FieldWidth(x: int)
    ensures |TwoDigits(x)| >= 2
    ensures 0 <= x < 100 ==> |TwoDigits(x)| == 2
  {
    if x >= 10 {
      assert |Digits(x / 10)| >= 1;
      assert x < 100 ==> Digits(x / 10) == [DigitChar(x / 10)];
    } else if x < 0 {
      assert |Digits(-x)| >= 1;
    }
  }

  /** strconv.Atoi reads a printed field back. */
  lemma TwoDigitsValue(x: int)
    requires MIN_INT64 <= x <= MAX_INT64
    ensures Atoi(TwoDigits(x)) == Some(x)
  {
    if 0 <= x < 10 {
      var s := "0" + Digits(x);
      assert s == ['0', DigitChar(x)] && s[..1] == ['0'] && s[..1][..0] == [];
      assert Value(s[..1]) == 0;
    } else {
      AtoiItoa(x);
    }
  }

  /** For every int64 the printed time splits into three numbers that give the seconds
      back. */
  lemma TimeFormatReadsBack(s: int)
    requires MIN_INT64 <= s <= MAX_INT64
    ensures var f := Split(TimeFormat(s), ':');
            && |f| == 3 && |f[0]| >= 2 && |f[1]| >= 2 && |f[2]| >= 2
            && (s >= 0 ==> |f[1]| == 2 && |f[2]| == 2)
            && Atoi(f[0]) == Some(Hours(s)) && Atoi(f[1]) == Some(Minutes(s)) && Atoi(f[2]) == Some(Seconds(s))
            && Atoi(f[0]).value * 3600 + Atoi(f[1]).value * 60 + Atoi(f[2]).value == s
  {
    ClockFields(s);
    TimeFormatSplits(s);
    FieldWidth(Hours(s));
    FieldWidth(Minutes(s));
    FieldWidth(Seconds(s));
    TwoDigitsValue(Hours(s));
    TwoDigitsValue(Minutes(s));
    TwoDigitsValue(Seconds(s));
  }

  lemma TimeFormatSplits(s: int)
    ensures Split(TimeFormat(s), ':') == [TwoDigits(Hours(s)), TwoDigits(Minutes(s)), TwoDigits(Seconds(s))]
  {
    var h, m, c := TwoDigits(Hours(s)), TwoDigits(Minutes(s)), TwoDigits(Seconds(s));
    var parts := [h, m, c];
    assert Join([c], ':') == c;
    assert parts[1..] == [m, c] && parts[1..][1..] == [c];
    assert Join(parts, ':') == h + ":" + (m + ":" + c);
    assert TimeFormat(s) == Join(parts, ':');
    SplitJoin(parts, ':');
  }
}
