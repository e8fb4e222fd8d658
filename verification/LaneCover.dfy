/** The arithmetic of a lane whose claims are counted in units of the other chain: what is
    booked here covers what is owed there, up to less than one native unit a credit. */
module LaneCover {
  import opened Precision

  predicate Covers(booked: nat, unit: nat, owed: nat, credits: nat)
  {
    owed <= booked * unit && booked * unit + credits <= owed + credits * unit
  }

  lemma CoversMore(booked: nat, unit: nat, owed: nat, credits: nat, amount: nat)
    requires Covers(booked, unit, owed, credits)
    ensures Covers(booked + amount, unit, owed + amount * unit, credits)
  {
    assert (booked + amount) * unit == booked * unit + amount * unit;
  }

  /** Crediting `amount` for a claim worth between that many units and one unit more. */
  lemma CoversCredit(booked: nat, unit: nat, owed: nat, credits: nat, amount: nat, claim: nat)
    requires Covers(booked, unit, owed, credits) && claim <= owed && amount <= booked
    requires amount * unit <= claim < amount * unit + unit
    ensures Covers(booked - amount, unit, owed - claim, credits + 1)
  {
    assert (booked - amount) * unit == booked * unit - amount * unit;
    assert (credits + 1) * unit == credits * unit + unit;
  }

  lemma NoMoreUnits(a: nat, b: nat, unit: nat)
    requires unit > 0 && a * unit <= b * unit
    ensures a <= b
  {
    assert (b + 1) * unit == b * unit + unit;
    MulCancel(a, b + 1, unit);
  }
}
