/** The payment fee: a rate in ten-thousandths, rounded half up to whole fen. */
module Fees {
  import opened Prelude

  const RATE_DENOMINATOR: nat := 10000

  /** Math.round(amount * rate / 10000), for exact arguments. */
  function Fee(amount: nat, rate: nat): nat {
    (2 * amount * rate + RATE_DENOMINATOR) / (2 * RATE_DENOMINATOR)
  }

  /** The fee is the one whole number within half a fen of the exact fee, the upper one at a tie. */
  lemma FeeIsNearest(amount: nat, rate: nat, fee: int)
    ensures fee == Fee(amount, rate) <==> -5000 < 10000 * fee - amount * rate <= 5000
  {
    var x := amount * rate;
    assert 2 * amount * rate == 2 * x;
    var f := Fee(amount, rate);
    assert f == (2 * x + 10000) / 20000;
    assert 20000 * f <= 2 * x + 10000 < 20000 * f + 20000;
  }

  /** With a rate of at most 100 percent a fee never exceeds the amount. */
  lemma FeeWithinAmount(amount: nat, rate: nat)
    requires rate <= RATE_DENOMINATOR
    ensures 0 <= Fee(amount, rate) <= amount
  {
    FeeIsNearest(amount, rate, Fee(amount, rate));
    assert amount * rate <= amount * 10000;
  }

  lemma FeeMonotone(small: nat, large: nat, rate: nat)
    requires small <= large
    ensures Fee(small, rate) <= Fee(large, rate)
  {
    FeeIsNearest(small, rate, Fee(small, rate));
    FeeIsNearest(large, rate, Fee(large, rate));
    assert small * rate <= large * rate;
  }

  /**
   The double-precision quotient gives the same fee, as long as it is within 1/20000 of the exact one and
   exact where the exact one is a multiple of one half.
  */
  lemma FeeSurvivesRounding(amount: nat, rate: nat, quotient: real)
    requires var exact := (amount * rate) as real / 10000.0; exact - 0.00005 < quotient < exact + 0.00005
    requires (2 * (amount * rate)) % 10000 == 0 ==> quotient == (amount * rate) as real / 10000.0
    ensures (quotient + 0.5).Floor == Fee(amount, rate)
  {
    var x := amount * rate;
    var f := Fee(amount, rate);
    FeeIsNearest(amount, rate, f);
    assert -5000 < 10000 * f - x <= 5000;
    if (2 * x) % 10000 != 0 {
      assert 10000 * f - x != 5000;
      assert 10000 * f - x <= 4999;
    }
    assert (x as real) / 10000.0 >= f as real - 0.5 && (x as real) / 10000.0 <= f as real + 0.4999;
    assert f as real <= quotient + 0.5 < f as real + 1.0;
  }

  function FeeOf(rate: nat): nat -> int { (amount: nat) => Fee(amount, rate) }

  function Identity(): nat -> int { (amount: nat) => amount }

  lemma {:induction false} SplitFees(amounts: seq<nat>, rate: nat)
    ensures Sum(amounts, Identity()) >= 0
    ensures -5000 * |amounts| <= 10000 * Sum(amounts, FeeOf(rate)) - Sum(amounts, Identity()) * rate <= 5000 * |amounts|
  {
    if amounts != [] {
      var rest, last := amounts[..|amounts| - 1], amounts[|amounts| - 1];
      SplitFees(rest, rate);
      FeeIsNearest(last, rate, Fee(last, rate));
      assert (Sum(rest, Identity()) + last) * rate == Sum(rest, Identity()) * rate + last * rate;
    }
  }

  /** Splitting one order into parts changes the fee by at most half a fen per part, plus half a fen. */
  lemma SplittingChangesLittle(amounts: seq<nat>, rate: nat)
    ensures Sum(amounts, Identity()) >= 0
    ensures var whole := Fee(Sum(amounts, Identity()), rate); var parts := Sum(amounts, FeeOf(rate));
            -(|amounts| + 1) <= 2 * (whole - parts) <= |amounts| + 1
  {
    SplitFees(amounts, rate);
    FeeIsNearest(Sum(amounts, Identity()), rate, Fee(Sum(amounts, Identity()), rate));
  }
}
