/** The runtime's native currency, as the bridge, the fee escrow and the retirement
    migrations use it: free, reserved and frozen balances, the existential deposit,
    and the total issuance. */
module Balances {
  import opened Sums

  const MAX_BALANCE: nat := 0xFFFF_FFFF_FFFF_FFFF_FFFF_FFFF_FFFF_FFFF

  /** One thousandth of a NEX, twelve decimals. */
  const EXISTENTIAL_DEPOSIT: nat := 1_000_000_000

  datatype Option<+T> = None | Some(value: T)

  /** `Derived` is the account computed from an EVM address by an injective hash; `Padded`
      is the address itself behind twelve zero bytes. */
  datatype AccountId =
    | User(id: nat)
    | Derived(evm: nat)
    | Padded(evm: nat)
    | Treasury
    | RewardPool
    | RelayerFees
    | HftCustody

  /** `burnedDust` counts what left the issuance because a reaped remainder found no
      living treasury to receive it. */
  datatype Bank = Bank(
    free: map<AccountId, nat>,
    reserved: map<AccountId, nat>,
    frozen: map<AccountId, nat>,
    issuance: nat,
    burnedDust: nat)
  {
    function Free(who: AccountId): nat { At(free, who) }
    function Reserved(who: AccountId): nat { At(reserved, who) }
    function Frozen(who: AccountId): nat { At(frozen, who) }
    predicate Exists(who: AccountId) { Free(who) > 0 || Reserved(who) > 0 }

    ghost function Held(): nat { SumOf(free) + SumOf(reserved) }

    /** The issuance is what the accounts hold, and it fits the balance type. */
    ghost predicate Valid() {
      issuance == Held() && issuance <= MAX_BALANCE
    }

    /** What a transfer may not touch: locks beyond the reserve, and the existential
        deposit when the account must or can only stay alive. */
    function Untouchable(who: AccountId, keepAlive: bool): nat {
      var locked := SatSub(Frozen(who), Reserved(who));
      if keepAlive || (Free(who) > 0 && (Reserved(who) > 0 || Frozen(who) > 0))
      then Max(EXISTENTIAL_DEPOSIT, locked)
      else locked
    }

    function Reducible(who: AccountId, keepAlive: bool): nat {
      SatSub(Free(who), Untouchable(who, keepAlive))
    }

    predicate CanDeposit(who: AccountId, amount: nat) {
      EXISTENTIAL_DEPOSIT <= Free(who) + amount <= MAX_BALANCE
    }

    /** Burns from an account that must survive: the shape of an outbound transfer. */
    function Withdraw(who: AccountId, amount: nat): Option<Bank> {
      if amount == 0 then Some(this)
      else if amount > Free(who) then None
      else if Free(who) - amount < EXISTENTIAL_DEPOSIT <= Free(who) then None
      else if Free(who) - amount < Frozen(who) then None
      else Some(this.(free := free[who := Free(who) - amount],
                      issuance := SatSub(issuance, amount)))
    }

    /** Mints. It silently does nothing when a new account would start below the
        existential deposit or the balance would overflow. */
    function DepositCreating(who: AccountId, amount: nat): Bank {
      if amount == 0 || (amount < EXISTENTIAL_DEPOSIT && !Exists(who))
         || Free(who) + amount > MAX_BALANCE
      then this
      else this.(free := free[who := Free(who) + amount],
                 issuance := Min(issuance + amount, MAX_BALANCE))
    }

    /** What a debit of `amount` leaves behind that cannot stay: it is reaped. */
    function Remainder(who: AccountId, amount: nat): nat {
      var rest := SatSub(Free(who), amount);
      if rest >= EXISTENTIAL_DEPOSIT || Reserved(who) > 0 then 0 else rest
    }

    /** Takes `amount` out of an account; a remainder below the existential deposit
        reaps the account, its dust going to a treasury that can receive it. */
    function Debit(who: AccountId, amount: nat): Bank
      requires amount <= Free(who)
    {
      var rest := Free(who) - amount;
      if rest == 0 || rest >= EXISTENTIAL_DEPOSIT || Reserved(who) > 0
      then this.(free := free[who := rest])
      else
        var b := this.(free := free[who := 0]);
        if b.Free(Treasury) + rest >= EXISTENTIAL_DEPOSIT
        then b.(free := b.free[Treasury := b.Free(Treasury) + rest])
        else b.(issuance := SatSub(issuance, rest), burnedDust := burnedDust + rest)
    }

    function Transfer(from: AccountId, to: AccountId, amount: nat, keepAlive: bool): Option<Bank> {
      if amount == 0 || from == to then Some(this)
      else if amount > Reducible(from, keepAlive) || !CanDeposit(to, amount) then None
      else
        var b := Debit(from, amount);
        Some(b.(free := b.free[to := b.Free(to) + amount]))
    }

    /** The fee layer's transfer: expendable, and still checked when it moves nothing. */
    function PayFee(from: AccountId, to: AccountId, amount: nat): Option<Bank> {
      if from == to && amount > Reducible(from, false) then None
      else Transfer(from, to, amount, false)
    }

    /** Moves reserved balance back to free; `leftover` is what could not be moved. */
    function Unreserve(who: AccountId, amount: nat): (r: (Bank, nat))
      ensures r.1 == SatSub(amount, Reserved(who))
    {
      var moved := Min(amount, Reserved(who));
      if moved == 0 then (this, amount)
      else (this.(reserved := reserved[who := Reserved(who) - moved],
                  free := free[who := Free(who) + moved]),
            amount - moved)
    }
  }

  lemma FreeWithinIssuance(b: Bank, who: AccountId)
    requires b.Valid()
    ensures b.Free(who) + b.Reserved(who) <= b.issuance
  {
    SumWrite(b.free, who, 0);
    SumWrite(b.reserved, who, 0);
  }

  /** A burn takes exactly `amount` from the payer and from the issuance, and leaves
      the payer at or above both the existential deposit and its locks. */
  lemma WithdrawBurns(b: Bank, who: AccountId, amount: nat)
    requires b.Valid() && b.Withdraw(who, amount).Some? && amount > 0
    ensures var b' := b.Withdraw(who, amount).value;
      && b'.Valid()
      && b'.issuance == b.issuance - amount
      && b'.Free(who) == b.Free(who) - amount
      && (b.Free(who) >= EXISTENTIAL_DEPOSIT ==> b'.Free(who) >= EXISTENTIAL_DEPOSIT)
      && b'.Free(who) >= b'.Frozen(who)
      && (forall a :: a != who ==> b'.Free(a) == b.Free(a))
      && b'.reserved == b.reserved && b'.frozen == b.frozen && b'.burnedDust == b.burnedDust
  {
    FreeWithinIssuance(b, who);
    SumWrite(b.free, who, b.Free(who) - amount);
  }

  /** A mint adds exactly `amount`, provided it reaches the existential deposit or the
      account already exists; otherwise it adds nothing at all. */
  lemma DepositMints(b: Bank, who: AccountId, amount: nat)
    requires b.Valid() && b.issuance + amount <= MAX_BALANCE
    ensures var b' := b.DepositCreating(who, amount);
      var minted := if amount < EXISTENTIAL_DEPOSIT && !b.Exists(who) then 0 else amount;
      && b'.Valid()
      && b'.issuance == b.issuance + minted
      && b'.Free(who) == b.Free(who) + minted
      && (forall a :: a != who ==> b'.Free(a) == b.Free(a))
      && b'.reserved == b.reserved && b'.frozen == b.frozen && b'.burnedDust == b.burnedDust
  {
    FreeWithinIssuance(b, who);
    SumWrite(b.free, who, b.Free(who) + amount);
  }

  lemma DebitMovesOut(b: Bank, who: AccountId, amount: nat)
    requires b.Valid() && amount <= b.Free(who)
    ensures var d := b.Debit(who, amount);
      && d.Held() + amount == d.issuance
      && d.issuance + d.burnedDust == b.issuance + b.burnedDust
      && d.reserved == b.reserved && d.frozen == b.frozen
  {
    var rest := b.Free(who) - amount;
    SumWrite(b.free, who, rest);
    if !(rest == 0 || rest >= EXISTENTIAL_DEPOSIT || b.Reserved(who) > 0) {
      var zeroed := b.free[who := 0];
      SumWrite(b.free, who, 0);
      SumWrite(zeroed, Treasury, At(zeroed, Treasury) + rest);
    }
  }

  /** A transfer neither mints nor burns, except that dust may leave through
      `burnedDust`; the receiver gets at least what was sent. */
  lemma TransferConserves(b: Bank, from: AccountId, to: AccountId, amount: nat, keepAlive: bool)
    requires b.Valid() && b.Transfer(from, to, amount, keepAlive).Some?
    ensures var b' := b.Transfer(from, to, amount, keepAlive).value;
      && b'.Valid()
      && b'.issuance + b'.burnedDust == b.issuance + b.burnedDust
      && b'.reserved == b.reserved && b'.frozen == b.frozen
  {
    if amount > 0 && from != to {
      DebitMovesOut(b, from, amount);
      var d := b.Debit(from, amount);
      SumWrite(d.free, to, d.Free(to) + amount);
    }
  }

  /** A transfer takes the amount and a reaped remainder from its source, and gives the
      receiver exactly the amount; only the treasury can gain besides. */
  lemma TransferTakes(b: Bank, from: AccountId, to: AccountId, amount: nat, keepAlive: bool)
    requires from != to && amount > 0 && b.Transfer(from, to, amount, keepAlive).Some?
    ensures var b' := b.Transfer(from, to, amount, keepAlive).value;
      && amount <= b.Free(from)
      && b'.Free(from) == b.Free(from) - amount - b.Remainder(from, amount)
      && (to != Treasury ==> b'.Free(to) == b.Free(to) + amount)
      && (forall a :: a != from && a != to && a != Treasury ==> b'.Free(a) == b.Free(a))
  {
  }

  /** The fee layer's payments neither mint nor burn. */
  lemma PayFeeConserves(b: Bank, from: AccountId, to: AccountId, amount: nat)
    requires b.Valid() && b.PayFee(from, to, amount).Some?
    ensures var b' := b.PayFee(from, to, amount).value;
      && b'.Valid() && b'.issuance + b'.burnedDust == b.issuance + b.burnedDust
      && (forall a :: a != from && a != to && a != Treasury ==> b'.Free(a) == b.Free(a))
  {
    TransferConserves(b, from, to, amount, false);
    if from != to && amount > 0 { TransferTakes(b, from, to, amount, false); }
  }

  /** A transfer that keeps its source alive moves exactly `amount` between the two
      accounts and leaves everything else, the issuance included, as it was. */
  lemma KeepAliveMovesExactly(b: Bank, from: AccountId, to: AccountId, amount: nat)
    requires b.Transfer(from, to, amount, true).Some? && from != to && amount > 0
    ensures var b' := b.Transfer(from, to, amount, true).value;
      && b' == b.(free := b.free[from := b.Free(from) - amount][to := b.Free(to) + amount])
      && b'.Free(from) == b.Free(from) - amount >= EXISTENTIAL_DEPOSIT
      && b'.Free(to) == b.Free(to) + amount
  {
  }

  lemma UnreserveConserves(b: Bank, who: AccountId, amount: nat)
    requires b.Valid()
    ensures var b' := b.Unreserve(who, amount).0;
      b'.Valid() && b'.issuance == b.issuance && b'.burnedDust == b.burnedDust
  {
    var moved := Min(amount, b.Reserved(who));
    SumWrite(b.reserved, who, b.Reserved(who) - moved);
    SumWrite(b.free, who, b.Free(who) + moved);
  }
}
