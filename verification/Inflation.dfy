/** Fixed annual inflation of five percent, paid out era by era, and the splitting of what
    does not go to stakers. */
module Inflation {
  import opened Sums
  import opened Balances
  import opened Precision

  const ANNUAL_INFLATION_PPM: nat := 50_000
  const MILLIS_PER_YEAR: nat := 31_557_600_000
  const SCALE: nat := 1_000_000 * MILLIS_PER_YEAR

  datatype Payout = Payout(stakers: nat, remainder: nat)

  function Saturated(n: nat): nat { Min(n, MAX_BALANCE) }

  /** The numerator saturates twice at the balance maximum. */
  function EraTotal(issuance: nat, millis: nat): nat {
    Quotient(Saturated(Saturated(issuance * ANNUAL_INFLATION_PPM) * millis), SCALE)
  }

  function EraPayout(issuance: nat, millis: nat): Payout {
    var total := EraTotal(issuance, millis);
    var stakers := Quotient(total * 80, 100);
    Payout(stakers, SatSub(total, stakers))
  }

  function TreasuryShare(remainder: nat): nat { Quotient(remainder * 3, 4) }

  /** A share that cannot open its account is dropped, and leaves the issuance again. */
  function Resolve(b: Bank, who: AccountId, credit: nat): Bank {
    if credit == 0 then b
    else if b.CanDeposit(who, credit) then b.(free := b.free[who := b.Free(who) + credit])
    else b.(issuance := SatSub(b.issuance, credit))
  }

  /** Issues the remainder and resolves it to the treasury and the reward pool. */
  function SplitRemainder(b: Bank, remainder: nat): Bank {
    var treasury := TreasuryShare(remainder);
    var issued := b.(issuance := b.issuance + remainder);
    Resolve(Resolve(issued, Treasury, treasury), RewardPool, remainder - Min(treasury, remainder))
  }

  lemma {:induction false} QuotientMonotone(x: nat, y: nat, f: nat)
    requires f > 0 && x <= y
    ensures Quotient(x, f) <= Quotient(y, f)
  {
    if x >= f { QuotientMonotone(x - f, y - f, f); }
  }

  /** Whatever the issuance and the length of the era: nothing overflows on the way, the
      three shares add up to the total exactly, and stakers get four fifths rounded down. */
  lemma SharesAddUp(issuance: nat, millis: nat)
    ensures var total, p := EraTotal(issuance, millis), EraPayout(issuance, millis);
      var treasury := TreasuryShare(p.remainder);
      && total * 80 <= MAX_BALANCE && p.remainder * 3 <= MAX_BALANCE
      && treasury <= p.remainder
      && p.stakers + treasury + (p.remainder - treasury) == total
      && 100 * p.stakers <= 80 * total < 100 * p.stakers + 100
      && 4 * treasury <= 3 * p.remainder < 4 * treasury + 4
  {
    var total, p := EraTotal(issuance, millis), EraPayout(issuance, millis);
    QuotientBracket(Saturated(Saturated(issuance * ANNUAL_INFLATION_PPM) * millis), SCALE);
    QuotientBracket(total * 80, 100);
    QuotientBracket(p.remainder * 3, 4);
  }

  /** No more than the exact rate, saturated or not. */
  lemma AtMostTheRate(issuance: nat, millis: nat)
    ensures EraTotal(issuance, millis) * SCALE <= issuance * ANNUAL_INFLATION_PPM * millis
  {
    var base := Saturated(issuance * ANNUAL_INFLATION_PPM);
    QuotientBracket(Saturated(base * millis), SCALE);
    MulMonotone(base, issuance * ANNUAL_INFLATION_PPM, millis);
  }

  datatype Era = Era(issuance: nat, millis: nat)

  function Elapsed(eras: seq<Era>): nat {
    if eras == [] then 0 else Elapsed(eras[..|eras| - 1]) + eras[|eras| - 1].millis
  }

  function PaidOver(eras: seq<Era>): nat {
    if eras == [] then 0
    else PaidOver(eras[..|eras| - 1]) + EraTotal(eras[|eras| - 1].issuance, eras[|eras| - 1].millis)
  }

  lemma {:induction false} PaidAtMostTheRate(eras: seq<Era>, cap: nat)
    requires forall e :: e in eras ==> e.issuance <= cap
    ensures PaidOver(eras) * SCALE <= cap * ANNUAL_INFLATION_PPM * Elapsed(eras)
  {
    if eras != [] {
      var front, last := eras[..|eras| - 1], eras[|eras| - 1];
      PaidAtMostTheRate(front, cap);
      AtMostTheRate(last.issuance, last.millis);
      RateGrows(last.issuance, cap, last.millis);
      Distributes(cap * ANNUAL_INFLATION_PPM, Elapsed(front), last.millis);
    }
  }

  lemma RateGrows(issuance: nat, cap: nat, millis: nat)
    requires issuance <= cap
    ensures issuance * ANNUAL_INFLATION_PPM * millis <= cap * ANNUAL_INFLATION_PPM * millis
  {
    MulMonotone(issuance * ANNUAL_INFLATION_PPM, cap * ANNUAL_INFLATION_PPM, millis);
  }

  lemma Distributes(a: nat, m: nat, n: nat)
    ensures a * (m + n) == a * m + a * n
  {
  }

  /** However a year is cut into eras, and whatever the issuance does below `cap`: the
      year pays at most five percent of it. */
  lemma YearPaysAtMostFivePercent(eras: seq<Era>, cap: nat)
    requires forall e :: e in eras ==> e.issuance <= cap
    requires Elapsed(eras) <= MILLIS_PER_YEAR
    ensures PaidOver(eras) * 20 <= cap
  {
    PaidAtMostTheRate(eras, cap);
    MulMonotone(Elapsed(eras), MILLIS_PER_YEAR, cap * ANNUAL_INFLATION_PPM);
    assert cap * ANNUAL_INFLATION_PPM * MILLIS_PER_YEAR * 20 == cap * SCALE;
    assert PaidOver(eras) * 20 * SCALE <= cap * SCALE;
  }

  function SameIssuance(issuance: nat, durations: seq<nat>): seq<Era> {
    if durations == [] then []
    else SameIssuance(issuance, durations[..|durations| - 1]) + [Era(issuance, durations[|durations| - 1])]
  }

  /** The numerator of a period, before it saturates. */
  function Numerator(issuance: nat, millis: nat): nat { Saturated(issuance * ANNUAL_INFLATION_PPM) * millis }

  lemma TotalOfNumerator(issuance: nat, millis: nat)
    ensures EraTotal(issuance, millis) == Quotient(Saturated(Numerator(issuance, millis)), SCALE)
  {
  }

  lemma NumeratorAdds(issuance: nat, m: nat, n: nat)
    ensures Numerator(issuance, m + n) == Numerator(issuance, m) + Numerator(issuance, n)
  {
    Distributes(Saturated(issuance * ANNUAL_INFLATION_PPM), m, n);
  }

  /** At a fixed issuance, cutting a period into n eras pays less than the whole period at
      once by fewer than n units, on all inputs; and it pays no more, unless the numerator
      of the whole period saturates. */
  lemma {:induction false} SplittingPaysAlmostTheSame(issuance: nat, durations: seq<nat>)
    requires durations != []
    ensures var eras := SameIssuance(issuance, durations);
      && EraTotal(issuance, Elapsed(eras)) < PaidOver(eras) + |durations|
      && (Numerator(issuance, Elapsed(eras)) <= MAX_BALANCE ==> PaidOver(eras) <= EraTotal(issuance, Elapsed(eras)))
  {
    hide EraTotal, Quotient, Numerator;
    var front, last := durations[..|durations| - 1], durations[|durations| - 1];
    var before, eras := SameIssuance(issuance, front), SameIssuance(issuance, durations);
    assert eras[..|eras| - 1] == before;
    NumeratorAdds(issuance, Elapsed(before), last);
    TotalOfNumerator(issuance, last);
    TotalOfNumerator(issuance, Elapsed(before));
    TotalOfNumerator(issuance, Elapsed(eras));
    if front != [] {
      SplittingPaysAlmostTheSame(issuance, front);
      SaturatedSplit(Numerator(issuance, Elapsed(before)), Numerator(issuance, last));
    }
  }

  lemma SaturatedSplit(x: nat, y: nat)
    ensures var whole, parts := Quotient(Saturated(x + y), SCALE),
        Quotient(Saturated(x), SCALE) + Quotient(Saturated(y), SCALE);
      whole <= parts + 1 && (x + y <= MAX_BALANCE ==> parts <= whole)
  {
    hide Quotient;
    QuotientSplit(Saturated(x), Saturated(y), SCALE);
    QuotientMonotone(Saturated(x + y), Saturated(x) + Saturated(y), SCALE);
  }

  /** Where it does saturate, two eras can pay twice what the period pays at once. */
  lemma SaturatedSplittingPaysMore()
    ensures var eras := SameIssuance(MAX_BALANCE, [1, 1]);
      PaidOver(eras) == 2 * EraTotal(MAX_BALANCE, Elapsed(eras)) > EraTotal(MAX_BALANCE, Elapsed(eras))
  {
    hide Quotient;
    var one := SameIssuance(MAX_BALANCE, [1]);
    assert [1, 1][..1] == [1] && [1][..0] == [];
    assert one == [Era(MAX_BALANCE, 1)] by { assert SameIssuance(MAX_BALANCE, []) == []; }
    var eras := SameIssuance(MAX_BALANCE, [1, 1]);
    assert eras == one + [Era(MAX_BALANCE, 1)];
    assert eras[..1] == one && one[..0] == [];
    assert PaidOver(one) == EraTotal(MAX_BALANCE, 1) && Elapsed(one) == 1;
    QuotientBracket(MAX_BALANCE, SCALE);
  }

  /** The remainder is issued once and reaches the two accounts exactly in its two shares,
      if and only if each share finds or makes a viable account; a dropped share is never
      left in the issuance. */
  lemma SplitterIsExactIff(b: Bank, remainder: nat)
    requires b.Valid() && b.issuance + remainder <= MAX_BALANCE
    ensures var b', treasury := SplitRemainder(b, remainder), TreasuryShare(remainder);
      && treasury <= remainder && b'.Valid()
      && (b'.issuance == b.issuance + remainder <==>
            (treasury == 0 || b.CanDeposit(Treasury, treasury))
                && (remainder == treasury || b.CanDeposit(RewardPool, remainder - treasury)))
      && (b'.issuance == b.issuance + remainder ==>
            b'.Free(Treasury) == b.Free(Treasury) + treasury
                && b'.Free(RewardPool) == b.Free(RewardPool) + remainder - treasury)
      && (forall a :: a != Treasury && a != RewardPool ==> b'.Free(a) == b.Free(a))
  {
    TreasuryShareFits(remainder);
    hide TreasuryShare, Resolve;
    var treasury := TreasuryShare(remainder);
    var issued := b.(issuance := b.issuance + remainder);
    assert issued.Held() == b.Held();
    hide Bank.Held;
    ResolvePart(issued, Treasury, treasury, remainder - treasury);
    var half := Resolve(issued, Treasury, treasury);
    assert half.CanDeposit(RewardPool, remainder - treasury) == b.CanDeposit(RewardPool, remainder - treasury);
    assert issued.CanDeposit(Treasury, treasury) == b.CanDeposit(Treasury, treasury);
    hide Bank.CanDeposit;
    ResolvePart(half, RewardPool, remainder - treasury, 0);
  }

  lemma TreasuryShareFits(remainder: nat)
    ensures TreasuryShare(remainder) <= remainder
  {
    QuotientBracket(remainder * 3, 4);
  }

  /** Resolving one part while `open` is still issued and unresolved. */
  lemma ResolvePart(b: Bank, who: AccountId, credit: nat, open: nat)
    requires b.issuance == b.Held() + credit + open && b.issuance <= MAX_BALANCE
    ensures var b' := Resolve(b, who, credit);
      && b'.issuance == b'.Held() + open
      && b'.issuance == b.issuance - (if credit == 0 || b.CanDeposit(who, credit) then 0 else credit)
      && b'.Free(who) == b.Free(who) + (if b.CanDeposit(who, credit) then credit else 0)
      && (forall a :: a != who ==> b'.Free(a) == b.Free(a))
  {
    SumWrite(b.free, who, b.Free(who) + credit);
  }
}
