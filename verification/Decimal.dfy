/** Decimal text of integers: what fmt prints for %d, and what strconv.Atoi leaves in
    its first result when its caller throws the error away. */
module Decimal {
  const MAX_UINT64: int := 0xFFFF_FFFF_FFFF_FFFF
  const TWO_TO_THE_63: int := 0x8000_0000_0000_0000

  type int32 = x: int | -0x8000_0000 <= x < 0x8000_0000

  predicate IsDigit(c: char) {
    '0' <= c <= '9'
  }

  function Digits(n: nat): (s: string)
    ensures s != "" && forall i | 0 <= i < |s| :: IsDigit(s[i])
  {
    var last := [(n % 10 + 48) as char];
    if n < 10 then last else Digits(n / 10) + last
  }

  function Itoa(n: int): (s: string)
    ensures s != "" && forall i | 0 <= i < |s| :: IsDigit(s[i]) || s[i] == '-'
  {
    if n < 0 then "-" + Digits(-n) else Digits(n)
  }

  datatype Parsed = BadSyntax | OutOfRange | Number(n: nat)

  /** The digit loop of strconv.ParseUint: the first bad character or the first overflow
      ends it, whichever comes first. */
  function ScanDigits(s: string): Parsed {
    if s == "" then
      Number(0)
    else
      match ScanDigits(s[..|s| - 1])
      case BadSyntax => BadSyntax
      case OutOfRange => OutOfRange
      case Number(n) =>
        var c := s[|s| - 1];
        if !IsDigit(c) then BadSyntax
        else if n * 10 + (c as int - 48) > MAX_UINT64 then OutOfRange
        else Number(n * 10 + (c as int - 48))
  }

  function Clamp(negative: bool, n: int): int {
    if negative then (if n > TWO_TO_THE_63 then -TWO_TO_THE_63 else -n)
    else if n >= TWO_TO_THE_63 then TWO_TO_THE_63 - 1 else n
  }

  /** The integer strconv.Atoi returns, error or not: 0 for malformed text, the nearest
      64-bit bound for a number out of range. */
  function Atoi(s: string): (n: int)
    ensures -TWO_TO_THE_63 <= n < TWO_TO_THE_63
  {
    if s == "" then
      0
    else
      var signed := s[0] == '-' || s[0] == '+';
      var body := if signed then s[1..] else s;
      if body == "" then 0
      else
        match ScanDigits(body)
        case BadSyntax => 0
        case OutOfRange => Clamp(s[0] == '-', MAX_UINT64)
        case Number(n) => Clamp(s[0] == '-', n)
  }

  lemma {:induction false} ScanOfDigits(n: nat)
    requires n <= MAX_UINT64
    ensures ScanDigits(Digits(n)) == Number(n)
  {
    var s := Digits(n);
    var c := (n % 10 + 48) as char;
    if n < 10 {
      assert s[..|s| - 1] == "";
    } else {
      ScanOfDigits(n / 10);
      assert s[..|s| - 1] == Digits(n / 10) && s[|s| - 1] == c;
    }
  }

  /** Every 64-bit integer survives being printed and parsed again. */
  lemma {:induction false} AtoiOfItoa(n: int)
    requires -0x8000_0000_0000_0000 <= n < 0x8000_0000_0000_0000
    ensures Atoi(Itoa(n)) == n
  {
    ScanOfDigits(if n < 0 then -n else n);
    if n < 0 {
      assert Itoa(n)[1..] == Digits(-n);
    } else {
      assert IsDigit(Digits(n)[0]);
    }
  }

  /** The text after an optional sign. */
  function Body(s: string): string {
    if s != "" && (s[0] == '-' || s[0] == '+') then s[1..] else s
  }

  predicate AllDigits(s: string) {
    forall i | 0 <= i < |s| :: IsDigit(s[i])
  }

  function Value(s: string): nat
    requires AllDigits(s)
  {
    if s == "" then 0 else Value(s[..|s| - 1]) * 10 + (s[|s| - 1] as int - 48)
  }

  function LeadingDigits(s: string): (d: string)
    ensures AllDigits(d) && d <= s && (d != s ==> !IsDigit(s[|d|]))
  {
    if s == "" || !IsDigit(s[0]) then "" else [s[0]] + LeadingDigits(s[1..])
  }

  /** The value of the digits before the first other character. */
  function LeadingValue(s: string): nat {
    Value(LeadingDigits(s))
  }

  lemma {:induction false} ScanOfAllDigits(s: string)
    requires AllDigits(s)
    ensures ScanDigits(s) == if Value(s) <= MAX_UINT64 then Number(Value(s)) else OutOfRange
  {
    if s != "" {
      ScanOfAllDigits(s[..|s| - 1]);
    }
  }

  lemma {:induction false} ScanStopsAtFirstBad(s: string, k: nat)
    requires k < |s| && !IsDigit(s[k]) && AllDigits(s[..k])
    ensures ScanDigits(s) == if Value(s[..k]) <= MAX_UINT64 then BadSyntax else OutOfRange
  {
    if k == |s| - 1 {
      ScanOfAllDigits(s[..k]);
    } else {
      assert s[..|s| - 1][..k] == s[..k];
      ScanStopsAtFirstBad(s[..|s| - 1], k);
    }
  }

  lemma {:induction false} DigitsAreCanonical(n: nat)
    ensures AllDigits(Digits(n)) && Value(Digits(n)) == n && (n > 0 ==> Digits(n)[0] != '0')
  {
    if n >= 10 {
      DigitsAreCanonical(n / 10);
      var s := Digits(n);
      assert s[..|s| - 1] == Digits(n / 10);
    }
  }

  /** An integer is printed as its decimal digits without leading zeros, after a minus sign if it is negative. */
  lemma ItoaIsCanonical(n: int)
    ensures var s := Itoa(n);
      && (s[0] == '-' <==> n < 0) && s[0] != '+'
      && AllDigits(Body(s)) && Value(Body(s)) == (if n < 0 then -n else n)
      && (n != 0 ==> Body(s) != "" && Body(s)[0] != '0') && (n == 0 ==> s == "0")
  {
    DigitsAreCanonical(if n < 0 then -n else n);
    if n < 0 {
      assert Itoa(n)[1..] == Digits(-n);
    } else {
      assert IsDigit(Digits(n)[0]);
    }
  }

  predicate Malformed(s: string) {
    Body(s) == "" || !AllDigits(Body(s))
  }

  /** How text that is no number is read when the error is dropped: as 0, if and only if the digits before
      the first bad character fit 64 unsigned bits; otherwise as the bound of the sign, since the
      overflow is noticed first. */
  lemma MalformedReads(s: string)
    requires Malformed(s)
    ensures Atoi(s) == 0 <==> LeadingValue(Body(s)) < 0x1_0000_0000_0000_0000
    ensures Atoi(s) != 0 ==> Atoi(s) == if s[0] == '-' then -0x8000_0000_0000_0000 else 0x7FFF_FFFF_FFFF_FFFF
  {
    var body := Body(s);
    if body != "" {
      var d := LeadingDigits(body);
      assert body[..|d|] == d;
      ScanStopsAtFirstBad(body, |d|);
    }
  }

  /** Text that is a number is read as the nearest 64-bit integer. */
  lemma NumbersRead(s: string)
    requires !Malformed(s)
    ensures var n: int := Value(Body(s));
      var x := if s[0] == '-' then -n else n;
      Atoi(s) == if x < -0x8000_0000_0000_0000 then -0x8000_0000_0000_0000
                 else if x > 0x7FFF_FFFF_FFFF_FFFF then 0x7FFF_FFFF_FFFF_FFFF
                 else x
  {
    ScanOfAllDigits(Body(s));
  }

  /** The other case happens: twenty nines and a letter. */
  lemma LongMalformedText()
    ensures Malformed("99999999999999999999x") && Atoi("99999999999999999999x") == 0x7FFF_FFFF_FFFF_FFFF
  {
    var s := "99999999999999999999x";
    assert !IsDigit(s[20]);
    ValueOfNines(s[..20]);
    ScanStopsAtFirstBad(s, 20);
  }

  lemma {:induction false} ValueOfNines(s: string)
    requires forall i | 0 <= i < |s| :: s[i] == '9'
    ensures Value(s) + 1 == PowerOfTen(|s|)
    ensures |s| == 20 ==> Value(s) > MAX_UINT64
  {
    if s != "" {
      ValueOfNines(s[..|s| - 1]);
    }
    assert PowerOfTen(20) == 100_000_000_000_000_000_000 by {
      assert PowerOfTen(10) == 10_000_000_000;
    }
  }

  function PowerOfTen(k: nat): int {
    if k == 0 then 1 else 10 * PowerOfTen(k - 1)
  }
}
