/** Precision conversion between ERC-20 amounts and native balances: a power-of-ten
    scale factor computed in 128 bits, and a balance read back through its decimal
    string. */
module Precision {
  import opened Sums
  import opened Balances

  const U128: nat := 0x1_0000_0000_0000_0000_0000_0000_0000_0000
  const U256: nat := U128 * U128

  /** The largest decimal gap a bridge lane may be registered with. */
  const MAX_ERC_NATIVE_DECIMAL_GAP: nat := 38

  function Pow10(k: nat): (p: nat)
    ensures p >= 1
  {
    if k == 0 then 1 else 10 * Pow10(k - 1)
  }

  /** `10u128.pow(gap)` without overflow checks: the power modulo 2^128. */
  function ScaleFactor(ercDecimals: nat, localDecimals: nat): nat {
    Wrap128(Pow10(SatSub(ercDecimals, localDecimals)))
  }

  /** Floor division, by repeated subtraction; see `QuotientIsDivision`. */
  function Quotient(x: nat, f: nat): nat
    requires f > 0
  {
    if x < f then 0 else 1 + Quotient(x - f, f)
  }

  /** The remainder modulo 2^128: what an unchecked 128-bit operation leaves. */
  function Wrap128(n: nat): (r: nat)
    ensures r < U128
  {
    if n < U128 then n else Wrap128(n - U128)
  }

  function Digit(d: nat): char
    requires d < 10
  {
    '0' + d as char
  }

  function DigitValue(c: char): nat
    requires '0' <= c
  {
    c as nat - '0' as nat
  }

  function Print(n: nat): string {
    if n < 10 then [Digit(n)] else Print(n / 10) + [Digit(n % 10)]
  }

  /** Reads digits from the left; the first intermediate value that does not fit a
      balance is an overflow error. */
  function ParseFrom(s: string, acc: nat): Option<nat> {
    if s == [] then Some(acc)
    else if !('0' <= s[0] <= '9') then None
    else
      var next := acc * 10 + DigitValue(s[0]);
      if next > MAX_BALANCE then None else ParseFrom(s[1..], next)
  }

  function Parse(s: string): Option<nat> {
    if s == [] then None else ParseFrom(s, 0)
  }

  /** An ERC-20 amount as a balance. `None` stands for a failed parse, and for the
      division trap when the wrapped scale factor is zero. */
  function ConvertToBalance(value: nat, ercDecimals: nat, localDecimals: nat): Option<nat> {
    var f := ScaleFactor(ercDecimals, localDecimals);
    if f == 0 then None else Parse(Print(Quotient(value, f)))
  }

  function ConvertToErc20(value: nat, ercDecimals: nat, localDecimals: nat): nat {
    value * ScaleFactor(ercDecimals, localDecimals)
  }

  lemma {:induction false} ParseFromConcat(s: string, t: string, acc: nat)
    ensures ParseFrom(s + t, acc) ==
            match ParseFrom(s, acc) { case None => None case Some(a) => ParseFrom(t, a) }
    decreases |s|
  {
    if s == [] {
      assert s + t == t;
    } else {
      assert (s + t)[1..] == s[1..] + t;
      if '0' <= s[0] <= '9' && acc * 10 + DigitValue(s[0]) <= MAX_BALANCE {
        ParseFromConcat(s[1..], t, acc * 10 + DigitValue(s[0]));
      }
    }
  }

  /** Printing then parsing is exact, and fails for exactly the numbers above the
      balance maximum. */
  lemma {:induction false} ParsePrint(n: nat)
    ensures Parse(Print(n)) == if n <= MAX_BALANCE then Some(n) else None
    ensures |Print(n)| > 0
  {
    if n >= 10 {
      ParsePrint(n / 10);
      var head, tail := Print(n / 10), [Digit(n % 10)];
      ParseFromConcat(head, tail, 0);
      assert tail[1..] == [];
      assert n == n / 10 * 10 + n % 10;
    } else {
      assert Print(n) == [Digit(n)] && Print(n)[1..] == [];
      assert DigitValue(Digit(n)) == n;
      assert ParseFrom(Print(n), 0) == ParseFrom([], n);
    }
  }

  lemma {:induction false} Pow10Grows(j: nat, k: nat)
    requires j <= k
    ensures Pow10(j) <= Pow10(k)
    ensures j < k ==> 10 * Pow10(j) <= Pow10(k)
    decreases k - j
  {
    if j < k { Pow10Grows(j, k - 1); }
  }

  lemma Pow10Bounds()
    ensures Pow10(38) < U128 < Pow10(39)
  {
    assert Pow10(13) == 10_000_000_000_000;
    assert Pow10(26) == 100_000_000_000_000_000_000_000_000;
    assert Pow10(38) == 100_000_000_000_000_000_000_000_000_000_000_000_000;
  }

  /** The 128-bit scale factor is the true power of ten for exactly the gaps that the
      lane registration admits; the token registry has no such cap. */
  lemma ScaleFactorExactIffGapAtMost38(ercDecimals: nat, localDecimals: nat)
    ensures ScaleFactor(ercDecimals, localDecimals) == Pow10(SatSub(ercDecimals, localDecimals))
            <==> SatSub(ercDecimals, localDecimals) <= MAX_ERC_NATIVE_DECIMAL_GAP
  {
    var gap := SatSub(ercDecimals, localDecimals);
    Pow10Bounds();
    if gap <= 38 { Pow10Grows(gap, 38); } else { Pow10Grows(39, gap); }
  }

  lemma MulMonotone(a: nat, b: nat, f: nat)
    requires a <= b
    ensures a * f <= b * f
  {
  }

  lemma MulCancel(a: nat, b: nat, f: nat)
    requires a * f < b * f
    ensures a < b
  {
    if b <= a { MulMonotone(b, a, f); }
  }

  lemma {:induction false} QuotientBracket(x: nat, f: nat)
    requires f > 0
    ensures Quotient(x, f) * f <= x < (Quotient(x, f) + 1) * f
  {
    if x >= f {
      QuotientBracket(x - f, f);
      var q := Quotient(x - f, f);
      assert (q + 1) * f == q * f + f;
      assert (q + 2) * f == (q + 1) * f + f;
    }
  }

  /** The only number that brackets `x` is its quotient. */
  lemma QuotientUnique(x: nat, f: nat, q: nat)
    requires f > 0 && q * f <= x < (q + 1) * f
    ensures Quotient(x, f) == q
  {
    QuotientBracket(x, f);
    MulCancel(q, Quotient(x, f) + 1, f);
    MulCancel(Quotient(x, f), q + 1, f);
  }

  lemma QuotientIsDivision(x: nat, f: nat)
    requires f > 0
    ensures Quotient(x, f) == x / f
  {
    assert x == f * (x / f) + x % f;
    QuotientUnique(x, f, x / f);
  }

  lemma QuotientOfMultiple(v: nat, f: nat)
    requires f > 0
    ensures Quotient(v * f, f) == v
  {
    assert (v + 1) * f == v * f + f;
    QuotientUnique(v * f, f, v);
  }

  /** Dividing a whole yields at most one unit more than dividing its two parts. */
  lemma QuotientSplit(x: nat, y: nat, f: nat)
    requires f > 0
    ensures Quotient(x, f) + Quotient(y, f) <= Quotient(x + y, f) <= Quotient(x, f) + Quotient(y, f) + 1
  {
    QuotientBracket(x, f);
    QuotientBracket(y, f);
    QuotientBracket(x + y, f);
    var a, b, c := Quotient(x, f), Quotient(y, f), Quotient(x + y, f);
    assert (a + b) * f == a * f + b * f;
    assert (a + b + 2) * f == (a + 1) * f + (b + 1) * f;
    MulCancel(a + b, c + 1, f);
    MulCancel(c, a + b + 2, f);
  }

  /** Within the registered gap the conversion is floor division by the true power of
      ten, failing for exactly the quotients above the balance maximum. */
  lemma ToBalanceIsFloor(x: nat, ercDecimals: nat, localDecimals: nat)
    requires SatSub(ercDecimals, localDecimals) <= MAX_ERC_NATIVE_DECIMAL_GAP
    ensures var q := Quotient(x, Pow10(SatSub(ercDecimals, localDecimals)));
      ConvertToBalance(x, ercDecimals, localDecimals) == if q <= MAX_BALANCE then Some(q) else None
  {
    ScaleFactorExactIffGapAtMost38(ercDecimals, localDecimals);
    var f := ScaleFactor(ercDecimals, localDecimals);
    ParsePrint(Quotient(x, f));
  }

  lemma ToErc20IsProduct(v: nat, ercDecimals: nat, localDecimals: nat)
    requires SatSub(ercDecimals, localDecimals) <= MAX_ERC_NATIVE_DECIMAL_GAP
    ensures ConvertToErc20(v, ercDecimals, localDecimals) == v * Pow10(SatSub(ercDecimals, localDecimals))
  {
    ScaleFactorExactIffGapAtMost38(ercDecimals, localDecimals);
  }

  /** A balance survives the trip to the ERC-20 side and back as long as the scale factor,
      wrapped or not, is not zero; and its ERC-20 amount always fits 256 bits. From a gap of
      128 decimals on the factor is zero: nothing arrives, and nothing can come back. */
  lemma RoundTrip(v: nat, ercDecimals: nat, localDecimals: nat)
    requires v <= MAX_BALANCE
    ensures ConvertToErc20(v, ercDecimals, localDecimals) < U256
    ensures ConvertToBalance(ConvertToErc20(v, ercDecimals, localDecimals), ercDecimals, localDecimals)
         == if SatSub(ercDecimals, localDecimals) < 128 then Some(v) else None
    ensures SatSub(ercDecimals, localDecimals) >= 128 ==> ConvertToErc20(v, ercDecimals, localDecimals) == 0
  {
    hide Quotient, Parse, Print, Pow10;
    var f := ScaleFactor(ercDecimals, localDecimals);
    ScaleFactorZeroIff(ercDecimals, localDecimals);
    if f > 0 {
      QuotientOfMultiple(v, f);
      ParsePrint(v);
    }
    MulMonotone(v, U128 - 1, f);
    MulMonotone(f, U128 - 1, U128 - 1);
  }

  function Pow2(k: nat): (p: nat)
    ensures p >= 1
  {
    if k == 0 then 1 else 2 * Pow2(k - 1)
  }

  function Pow5(k: nat): nat { if k == 0 then 1 else 5 * Pow5(k - 1) }

  lemma {:induction false} Pow2Adds(j: nat, k: nat)
    ensures Pow2(j + k) == Pow2(j) * Pow2(k)
  {
    if j > 0 {
      Pow2Adds(j - 1, k);
      Associate(2, Pow2(j - 1), Pow2(k));
    }
  }

  lemma {:induction false} TenIsTwoTimesFive(k: nat)
    ensures Pow10(k) == Pow5(k) * Pow2(k) && Pow5(k) % 2 == 1
  {
    if k > 0 {
      TenIsTwoTimesFive(k - 1);
      var p, q := Pow5(k - 1), Pow2(k - 1);
      assert Pow5(k) == 5 * p && Pow2(k) == 2 * q && Pow10(k) == 10 * Pow10(k - 1);
      hide Pow2, Pow5, Pow10;
      OneMoreDigit(Pow10(k - 1), p, q);
    }
  }

  lemma OneMoreDigit(t: nat, p: nat, q: nat)
    requires t == p * q && p % 2 == 1
    ensures 5 * p * (2 * q) == 10 * t && 5 * p % 2 == 1
  {
    Associate(5, p, 2 * q);
    Associate(p, 2, q);
    assert p * 2 == 2 * p;
    Associate(2, p, q);
  }

  lemma ByteWidth()
    ensures Pow2(8) == 256
  {
    assert Pow2(4) == 16;
  }

  lemma WidthIsPowerOfTwo()
    ensures Pow2(128) == U128
  {
    hide Pow2;
    ByteWidth();
    Pow2Adds(8, 8);
    Pow2Adds(16, 16);
    Pow2Adds(32, 32);
    Pow2Adds(64, 64);
  }

  lemma {:induction false} WrapIsRemainder(n: nat)
    ensures Wrap128(n) + Quotient(n, U128) * U128 == n
  {
    if n >= U128 { WrapIsRemainder(n - U128); }
  }

  /** The wrapped factor vanishes for exactly the gaps of 128 decimals and more: a power of
      ten holds one factor of two for each of its digits. */
  lemma ScaleFactorZeroIff(ercDecimals: nat, localDecimals: nat)
    ensures ScaleFactor(ercDecimals, localDecimals) == 0 <==> SatSub(ercDecimals, localDecimals) >= 128
  {
    hide Quotient, Wrap128, Pow10, Pow2, Pow5;
    var gap := SatSub(ercDecimals, localDecimals);
    var n := Pow10(gap);
    TenIsTwoTimesFive(gap);
    WidthIsPowerOfTwo();
    WrapIsRemainder(n);
    if gap >= 128 {
      Pow2Adds(gap - 128, 128);
      Associate(Pow5(gap), Pow2(gap - 128), U128);
      QuotientOfMultiple(Pow5(gap) * Pow2(gap - 128), U128);
    } else if Wrap128(n) == 0 {
      var q := Quotient(n, U128);
      Pow2Adds(128 - gap, gap);
      Associate(q, Pow2(128 - gap), Pow2(gap));
      SameMultiple(Pow5(gap), q * Pow2(128 - gap), Pow2(gap));
      TwoIsEven(q, gap);
    }
  }

  lemma SameMultiple(a: nat, b: nat, f: nat)
    requires f > 0 && a * f == b * f
    ensures a == b
  {
    Distribute(a, f);
    Distribute(b, f);
    MulCancel(a, b + 1, f);
    MulCancel(b, a + 1, f);
  }

  lemma TwoIsEven(q: nat, gap: nat)
    requires gap < 128
    ensures q * Pow2(128 - gap) % 2 == 0
  {
    Associate(q, 2, Pow2(127 - gap));
    assert q * Pow2(128 - gap) == 2 * (q * Pow2(127 - gap));
  }

  /** What an inbound conversion drops is less than one native unit's worth. */
  lemma DustBelowOneUnit(x: nat, credited: nat, ercDecimals: nat, localDecimals: nat)
    requires SatSub(ercDecimals, localDecimals) <= MAX_ERC_NATIVE_DECIMAL_GAP
    requires ConvertToBalance(x, ercDecimals, localDecimals) == Some(credited)
    ensures var worth := ConvertToErc20(credited, ercDecimals, localDecimals);
      worth <= x < worth + Pow10(SatSub(ercDecimals, localDecimals))
  {
    var f := Pow10(SatSub(ercDecimals, localDecimals));
    ToBalanceIsFloor(x, ercDecimals, localDecimals);
    QuotientBracket(x, f);
    ToErc20IsProduct(credited, ercDecimals, localDecimals);
    Distribute(credited, f);
  }

  lemma Distribute(q: nat, f: nat)
    ensures (q + 1) * f == q * f + f
  {
  }

  /** Splitting an inbound transfer never yields more than sending it whole, and at
      most one unit less; a larger transfer never yields less. */
  lemma SplittingNeverYieldsMore(x: nat, y: nat, ercDecimals: nat, localDecimals: nat)
    requires SatSub(ercDecimals, localDecimals) <= MAX_ERC_NATIVE_DECIMAL_GAP
    requires ConvertToBalance(x + y, ercDecimals, localDecimals).Some?
    ensures var cx, cy := ConvertToBalance(x, ercDecimals, localDecimals),
        ConvertToBalance(y, ercDecimals, localDecimals);
      var whole := ConvertToBalance(x + y, ercDecimals, localDecimals).value;
      && cx.Some? && cy.Some?
      && cx.value + cy.value <= whole <= cx.value + cy.value + 1
      && cx.value <= whole
  {
    var f := Pow10(SatSub(ercDecimals, localDecimals));
    ToBalanceIsFloor(x, ercDecimals, localDecimals);
    ToBalanceIsFloor(y, ercDecimals, localDecimals);
    ToBalanceIsFloor(x + y, ercDecimals, localDecimals);
    QuotientSplit(x, y, f);
  }

  /** A refund converted with the decimals of today restores an amount sent under the
      decimals of the dispatch if and only if the scale has not changed. */
  lemma RefundExactIffSameScale(v: nat, sentDecimals: nat, nowDecimals: nat, localDecimals: nat)
    requires 0 < v <= MAX_BALANCE
    requires localDecimals <= sentDecimals <= localDecimals + MAX_ERC_NATIVE_DECIMAL_GAP
    requires localDecimals <= nowDecimals <= localDecimals + MAX_ERC_NATIVE_DECIMAL_GAP
    ensures ConvertToBalance(ConvertToErc20(v, sentDecimals, localDecimals), nowDecimals, localDecimals) == Some(v)
            <==> sentDecimals == nowDecimals
  {
    hide Pow10, Quotient, ConvertToBalance;
    var a, b := Pow10(sentDecimals - localDecimals), Pow10(nowDecimals - localDecimals);
    ScaleFactorExactIffGapAtMost38(sentDecimals, localDecimals);
    ToBalanceIsFloor(v * a, nowDecimals, localDecimals);
    QuotientBracket(v * a, b);
    if sentDecimals == nowDecimals {
      QuotientOfMultiple(v, b);
    } else if sentDecimals < nowDecimals {
      Pow10Grows(sentDecimals - localDecimals, nowDecimals - localDecimals);
      ScaledQuotientDiffers(v, a, b, Quotient(v * a, b));
    } else {
      Pow10Grows(nowDecimals - localDecimals, sentDecimals - localDecimals);
      ScaledQuotientDiffers(v, a, b, Quotient(v * a, b));
    }
  }

  lemma ScaledQuotientDiffers(v: nat, a: nat, b: nat, q: nat)
    requires v > 0 && a > 0 && b > 0 && (10 * a <= b || 10 * b <= a)
    requires q * b <= v * a < (q + 1) * b
    ensures q != v
  {
    if 10 * a <= b {
      MulMonotone(10 * a, b, v);
      MulMonotone(1, v, a);
      assert v * b >= 10 * (v * a);
    } else {
      MulMonotone(10 * b, a, v);
      MulMonotone(1, v, b);
      assert v * a >= 10 * (v * b);
      assert (v + 1) * b == v * b + b;
    }
  }

  lemma {:induction false} Pow10Adds(j: nat, k: nat)
    ensures Pow10(j + k) == Pow10(j) * Pow10(k)
  {
    if j > 0 {
      Pow10Adds(j - 1, k);
      Associate(10, Pow10(j - 1), Pow10(k));
    }
  }

  lemma Associate(a: nat, b: nat, c: nat)
    ensures a * b * c == a * (b * c)
  {
  }

  /** What an amount sent under one scale is worth under another: lowering the decimals
      multiplies it by the power of ten between them, raising them divides it. */
  lemma RescaledAmount(v: nat, sent: nat, now: nat)
    ensures now <= sent ==> Quotient(v * Pow10(sent), Pow10(now)) == v * Pow10(sent - now)
    ensures now >= sent ==> Quotient(v * Pow10(sent), Pow10(now)) == Quotient(v, Pow10(now - sent))
  {
    hide Quotient, Pow10;
    if now <= sent {
      Pow10Adds(sent - now, now);
      Associate(v, Pow10(sent - now), Pow10(now));
      QuotientOfMultiple(v * Pow10(sent - now), Pow10(now));
    } else {
      var f, c := Pow10(sent), Pow10(now - sent);
      Pow10Adds(now - sent, sent);
      QuotientBracket(v, c);
      var q := Quotient(v, c);
      Associate(q, c, f);
      Associate(q + 1, c, f);
      MulMonotone(q * c, v, f);
      MulMonotone(v + 1, (q + 1) * c, f);
      Distribute(v, f);
      QuotientUnique(v * f, c * f, q);
    }
  }
}
