/** `yen`: an amount with a sign, the yen mark and commas every three digits. */
module Money {
  import opened Decimal

  const MARK: string := "\U{00A5}"
  const MIN_INT: int := -TWO63

  /** The first `i` characters of `s` with the commas the left-to-right loop puts before them. */
  function Commas(s: string, i: nat): string
    requires i <= |s|
  {
    if i == 0 then "" else
      Commas(s, i - 1) + (if i - 1 > 0 && (|s| - (i - 1)) % 3 == 0 then "," else "") + [s[i - 1]]
  }

  function Sign(v: int): string { (if v < 0 then "-" else "") + MARK }

  /** What `yen` returns; negation wraps around as a 64-bit int does. */
  function YenText(v: int): string {
    var s := Itoa(if v < 0 then Wrap(-v) else v);
    Sign(v) + if |s| <= 3 then s else Commas(s, |s|)
  }

  method Yen(v: int) returns (r: string)
    requires MIN_INT <= v < TWO63
    ensures r == YenText(v)
  {
    var negative := v < 0;
    var n := if negative then Wrap(-v) else v;
    var s := Itoa(n);
    if |s| <= 3 {
      return (if negative then "-" + MARK else MARK) + s;
    }
    var out := "";
    for i := 0 to |s|
      invariant out == Commas(s, i)
    {
      if i > 0 && (|s| - i) % 3 == 0 {
        out := out + ",";
      }
      out := out + [s[i]];
    }
    r := (if negative then "-" + MARK else MARK) + out;
  }

  // ----- Grouping by thousands -----

  /** Three digits, leading zeros included. */
  function Pad3(k: nat): string
    requires k < 1000
  {
    [Digit(k / 100), Digit(k / 10 % 10), Digit(k % 10)]
  }

  /** The reference form: the thousands grouped first, a comma, the last three digits. */
  function Grouped(n: nat): string {
    if n < 1000 then Digits(n) else Grouped(n / 1000) + "," + Pad3(n % 1000)
  }

  lemma ThreeOff(x: int)
    ensures (x + 3) % 3 == x % 3
  {
  }

  lemma {:induction false} CommasOfPrefix(s: string, i: nat)
    requires |s| > 3 && i <= |s| - 3
    ensures Commas(s, i) == Commas(s[..|s| - 3], i)
  {
    if i > 0 {
      var p := s[..|s| - 3];
      CommasOfPrefix(s, i - 1);
      assert p[i - 1] == s[i - 1] && |s| - (i - 1) == |p| - (i - 1) + 3;
      ThreeOff(|p| - (i - 1));
    }
  }

  /** The loop's output, read from the right: all but the last three characters, a comma, the last three. */
  lemma {:induction false} CommasFromRight(s: string)
    requires |s| > 3
    ensures Commas(s, |s|) == Commas(s[..|s| - 3], |s| - 3) + "," + s[|s| - 3..]
  {
    var n := |s|;
    CommasOfPrefix(s, n - 3);
    assert Commas(s, n - 2) == Commas(s, n - 3) + "," + [s[n - 3]];
    assert Commas(s, n - 1) == Commas(s, n - 2) + "" + [s[n - 2]];
    assert Commas(s, n) == Commas(s, n - 1) + "" + [s[n - 1]];
    assert s[n - 3..] == [s[n - 3]] + [s[n - 2]] + [s[n - 1]];
  }

  lemma {:induction false} ShortHasNoCommas(s: string)
    requires |s| <= 3
    ensures Commas(s, |s|) == s
  {
    if |s| > 0 {
      assert Commas(s, 1) == Commas(s, 0) + "" + [s[0]];
      assert s[..1] == [s[0]];
      if |s| > 1 {
        assert Commas(s, 2) == Commas(s, 1) + "" + [s[1]];
        assert s[..2] == [s[0]] + [s[1]];
        if |s| > 2 {
          assert Commas(s, 3) == Commas(s, 2) + "" + [s[2]];
          assert s == [s[0]] + [s[1]] + [s[2]];
        }
      }
    }
  }

  lemma QuotientsByTen(n: nat)
    ensures n / 10 / 10 == n / 100 && n / 100 / 10 == n / 1000
  {
  }

  lemma TenParts(x: nat, q: nat, m: nat)
    requires x == 10 * q + m && m < 10
    ensures x / 10 == q && x % 10 == m
  {
  }

  lemma LowDigits(a: nat, r: nat)
    requires r < 1000
    ensures (1000 * a + r) % 10 == r % 10 && (1000 * a + r) / 10 % 10 == r / 10 % 10
  {
    TenParts(1000 * a + r, 100 * a + r / 10, r % 10);
    TenParts(100 * a + r / 10, 10 * a + r / 10 / 10, r / 10 % 10);
  }

  lemma HighDigit(a: nat, r: nat)
    requires r < 1000
    ensures (1000 * a + r) / 10 / 10 % 10 == r / 100
  {
    TenParts(1000 * a + r, 100 * a + r / 10, r % 10);
    TenParts(100 * a + r / 10, 10 * a + r / 10 / 10, r / 10 % 10);
    TenParts(10 * a + r / 100, a, r / 100);
  }

  lemma ThousandParts(n: nat)
    ensures n / 10 / 10 / 10 == n / 1000 && n / 10 / 10 == n / 100
    ensures n % 1000 % 10 == n % 10 && n % 1000 / 10 % 10 == n / 10 % 10 && n % 1000 / 100 == n / 100 % 10
  {
    QuotientsByTen(n);
    assert n == 1000 * (n / 1000) + n % 1000;
    LowDigits(n / 1000, n % 1000);
    HighDigit(n / 1000, n % 1000);
  }

  lemma {:induction false} DigitsByThousands(n: nat)
    requires n >= 1000
    ensures Digits(n) == Digits(n / 1000) + Pad3(n % 1000)
  {
    ThousandParts(n);
    assert Digits(n) == Digits(n / 10) + [Digit(n % 10)];
    assert Digits(n / 10) == Digits(n / 100) + [Digit(n / 10 % 10)];
    assert Digits(n / 100) == Digits(n / 1000) + [Digit(n / 100 % 10)];
  }

  lemma {:induction false} ShortDigits(n: nat)
    requires n < 1000
    ensures |Digits(n)| <= 3
  {
    if n >= 10 {
      assert Digits(n) == Digits(n / 10) + [Digit(n % 10)];
      if n >= 100 {
        assert Digits(n / 10) == Digits(n / 10 / 10) + [Digit(n / 10 % 10)];
      }
    }
  }

  /** The comma loop computes the grouping by thousands. */
  lemma {:induction false} LoopIsGrouping(n: nat)
    ensures Commas(Digits(n), |Digits(n)|) == Grouped(n)
  {
    if n < 1000 {
      ShortDigits(n);
      ShortHasNoCommas(Digits(n));
    } else {
      DigitsByThousands(n);
      LoopIsGrouping(n / 1000);
      CommasFromRight(Digits(n));
      assert Digits(n)[..|Digits(n)| - 3] == Digits(n / 1000);
      assert Digits(n)[|Digits(n)| - 3..] == Pad3(n % 1000);
    }
  }

  /** d digits take d + (d - 1) / 3 characters. */
  lemma {:induction false} GroupedLength(n: nat)
    ensures |Grouped(n)| == |Digits(n)| + (|Digits(n)| - 1) / 3
  {
    if n < 1000 {
      ShortDigits(n);
    } else {
      DigitsByThousands(n);
      GroupedLength(n / 1000);
    }
  }

  function FromRight(s: string, i: nat): char
    requires i < |s|
  {
    s[|s| - 1 - i]
  }

  lemma FromRightOf(a: string, b: string, i: nat)
    requires i < |a| + |b|
    ensures FromRight(a + b, i) == if i < |b| then FromRight(b, i) else FromRight(a, i - |b|)
  {
  }

  lemma GroupedLow(k: nat, i: nat)
    requires k < 1000 && i < 4
    ensures |"," + Pad3(k)| == 4
    ensures var c := FromRight("," + Pad3(k), i); if i == 3 then c == ',' else IsDigit(c)
  {
  }

  lemma GroupedSplit(n: nat)
    requires n >= 1000
    ensures Grouped(n) == Grouped(n / 1000) + ("," + Pad3(n % 1000)) && |"," + Pad3(n % 1000)| == 4
  {
  }

  lemma FourOff(i: nat)
    ensures i >= 4 ==> (i - 4) % 4 == i % 4
    ensures i < 4 ==> i % 4 == i
  {
  }

  /** Counted from the right, every fourth character is a comma and all others are digits. */
  lemma {:induction false} CommaEveryThree(n: nat, i: nat)
    requires i < |Grouped(n)|
    ensures if i % 4 == 3 then FromRight(Grouped(n), i) == ',' else IsDigit(FromRight(Grouped(n), i))
  {
    if n < 1000 {
      ShortDigits(n);
      assert FromRight(Digits(n), i) in Digits(n);
    } else {
      var high, low := Grouped(n / 1000), "," + Pad3(n % 1000);
      GroupedSplit(n);
      FourOff(i);
      FromRightOf(high, low, i);
      if i < 4 {
        GroupedLow(n % 1000, i);
      } else {
        CommaEveryThree(n / 1000, i - 4);
      }
    }
  }

  /** No leading zero. */
  lemma {:induction false} NoLeadingZero(n: nat)
    requires n > 0
    ensures Digits(n)[0] != '0'
  {
    if n >= 10 {
      NoLeadingZero(n / 10);
    }
  }

  function Abs(v: int): nat { if v < 0 then -v else v }

  /** The intended text of an amount. */
  function Formatted(v: int): string { Sign(v) + Grouped(Abs(v)) }

  lemma {:induction false} CommasFirst(s: string, i: nat)
    requires 0 < i <= |s|
    ensures Commas(s, i) != "" && Commas(s, i)[0] == s[0]
  {
    if i > 1 {
      CommasFirst(s, i - 1);
    }
  }

  lemma {:induction false} GroupedFirst(n: nat)
    ensures Grouped(n) != "" && IsDigit(Grouped(n)[0])
  {
    if n >= 1000 {
      GroupedFirst(n / 1000);
    } else {
      assert Digits(n)[0] in Digits(n);
    }
  }

  lemma MinIsLong()
    ensures |Itoa(MIN_INT)| > 3
  {
    DigitsByThousands(TWO63);
  }

  /** The text for the smallest int shows a second minus sign where the first digit belongs. */
  lemma MinIsWrong(v: int)
    requires v == MIN_INT
    ensures YenText(v) != Formatted(v)
  {
    assert Wrap(-v) == v;
    var s := Itoa(v);
    assert s[0] == '-';
    MinIsLong();
    CommasFirst(s, |s|);
    GroupedFirst(Abs(v));
    assert YenText(v)[|Sign(v)|] == '-';
    assert Formatted(v)[|Sign(v)|] == Grouped(Abs(v))[0];
  }

  /** `yen` writes the intended text for every int but the smallest, whose negation wraps around. */
  lemma YenIsFormattedIff(v: int)
    requires MIN_INT <= v < TWO63
    ensures YenText(v) == Formatted(v) <==> v != MIN_INT
  {
    if v != MIN_INT {
      var n := Abs(v);
      assert (if v < 0 then Wrap(-v) else v) == n;
      LoopIsGrouping(n);
      if |Digits(n)| <= 3 {
        ShortHasNoCommas(Digits(n));
      }
    } else {
      MinIsWrong(v);
    }
  }

  // ----- Reading it back -----

  function Strip(s: string): string {
    if s == "" then "" else Strip(s[..|s| - 1]) + if s[|s| - 1] == ',' then "" else [s[|s| - 1]]
  }

  /** Reads an amount back: the sign, the mark, the digits without commas. */
  function ParseYen(s: string): int
    requires |s| >= 2
  {
    if s[0] == '-' then -Value(Strip(s[2..])) else Value(Strip(s[1..]))
  }

  lemma {:induction false} StripConcat(a: string, b: string)
    ensures Strip(a + b) == Strip(a) + Strip(b)
  {
    if b == "" {
      assert a + b == a;
    } else {
      assert (a + b)[..|a + b| - 1] == a + b[..|b| - 1];
      StripConcat(a, b[..|b| - 1]);
    }
  }

  lemma {:induction false} StripDigits(s: string)
    requires AllDigits(s)
    ensures Strip(s) == s
  {
    if s != "" {
      var front, last := s[..|s| - 1], s[|s| - 1];
      assert s == front + [last];
      assert last in s && forall c | c in front :: c in s;
      StripDigits(front);
    }
  }

  lemma {:induction false} StripGrouped(n: nat)
    ensures Strip(Grouped(n)) == Digits(n)
  {
    if n < 1000 {
      StripDigits(Digits(n));
    } else {
      DigitsByThousands(n);
      StripGrouped(n / 1000);
      StripDigits(Pad3(n % 1000));
      StripConcat(Grouped(n / 1000) + ",", Pad3(n % 1000));
      StripConcat(Grouped(n / 1000), ",");
      assert ","[..0] == "";
    }
  }

  /** An amount starts with the yen sign, a negative one with a minus sign before it. */
  lemma YenStarts(v: int)
    ensures var s := YenText(v); s != "" && (v >= 0 ==> s[0] == '\U{00A5}')
    ensures v < 0 ==> |YenText(v)| >= 2 && YenText(v)[0] == '-' && YenText(v)[1] == '\U{00A5}'
  {
  }

  /** Round trip: parsing what `yen` wrote gives the amount back. */
  lemma YenRoundTrip(v: int)
    requires MIN_INT < v < TWO63
    ensures |YenText(v)| >= 2 && ParseYen(YenText(v)) == v
  {
    YenIsFormattedIff(v);
    var n := Abs(v);
    GroupedFirst(n);
    StripGrouped(n);
    ValueOfDigits(n);
    assert Formatted(v)[|Sign(v)|..] == Grouped(n);
  }
}
