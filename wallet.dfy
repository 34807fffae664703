/** `Wallet.ts`: a user's wallet, whose balance never goes negative and
    changes only through credits and debits. */
module Wallets {
  import opened Wrappers

  datatype WalletDto = WalletDto(id: int, userId: int, balance: int)

  /** A wallet as given to the constructor, `id` and `balance` optional. */
  datatype NewWalletDto = NewWalletDto(id: Option<int>, userId: int, balance: Option<int>)

  /** The wallets the setters admit: a truthy (non-zero) user id and a
      balance that is not negative. */
  predicate ValidWallet(d: WalletDto)
  {
    d.userId != 0 && d.balance >= 0
  }

  function OrDefault(o: Option<int>, default: int): int
  {
    if o.Some? then o.value else default
  }

  /** `new Wallet(dto)`: `id` and `balance` default to 0, then the setters
      run in the order id, userId, balance, the first to reject one throwing
      its message. */
  function Admit(n: NewWalletDto): (r: Result<WalletDto>)
    ensures r.Ok? <==> n.userId != 0 && OrDefault(n.balance, 0) >= 0
    ensures n.userId == 0 ==> r == Err("User ID is required")
    ensures n.userId != 0 && OrDefault(n.balance, 0) < 0 ==> r == Err("Balance cannot be negative")
    ensures r.Ok? ==> r.value == WalletDto(OrDefault(n.id, 0), n.userId, OrDefault(n.balance, 0))
    ensures r.Ok? ==> ValidWallet(r.value)
  {
    if n.userId == 0 then Err("User ID is required")
    else if OrDefault(n.balance, 0) < 0 then Err("Balance cannot be negative")
    else Ok(WalletDto(OrDefault(n.id, 0), n.userId, OrDefault(n.balance, 0)))
  }

  /** `credit(amount)` on a balance, including the check the balance setter
      makes on the sum. */
  function Credited(balance: int, amount: int): (r: Result<int>)
    ensures amount <= 0 ==> r == Err("Credit amount must be positive")
    ensures amount > 0 && balance >= 0 ==> r == Ok(balance + amount)
  {
    if amount <= 0 then Err("Credit amount must be positive")
    else if balance + amount < 0 then Err("Balance cannot be negative")
    else Ok(balance + amount)
  }

  /** `debit(amount)` on a balance. */
  function Debited(balance: int, amount: int): (r: Result<int>)
    ensures amount <= 0 ==> r == Err("Debit amount must be positive")
    ensures amount > 0 && balance < amount ==> r == Err("Insufficient balance")
    ensures amount > 0 && balance >= amount ==> r == Ok(balance - amount)
  {
    if amount <= 0 then Err("Debit amount must be positive")
    else if balance < amount then Err("Insufficient balance")
    else if balance - amount < 0 then Err("Balance cannot be negative")
    else Ok(balance - amount)
  }

  /** A balance that is not negative stays so under any credit or debit. */
  lemma BalanceStaysNonNegative(balance: int, amount: int)
    requires balance >= 0
    ensures Credited(balance, amount).Ok? ==> Credited(balance, amount).value >= 0
    ensures Debited(balance, amount).Ok? ==> Debited(balance, amount).value >= 0
  {
  }

  /** A debit succeeds exactly when the amount is positive and covered. */
  lemma DebitSucceedsIffCovered(balance: int, amount: int)
    ensures Debited(balance, amount).Ok? <==> 0 < amount <= balance
  {
  }

  /** Debiting what was just credited restores the balance. */
  lemma DebitUndoesCredit(balance: int, amount: int)
    requires balance >= 0 && Credited(balance, amount).Ok?
    ensures Debited(Credited(balance, amount).value, amount) == Ok(balance)
  {
  }

  /** `fromDto(toDto(w))`: a valid wallet's fields come back unchanged. */
  lemma DtoRoundTrip(d: WalletDto)
    requires ValidWallet(d)
    ensures Admit(NewWalletDto(Some(d.id), d.userId, Some(d.balance))) == Ok(d)
  {
  }

  class Wallet {
    var id: int
    var userId: int
    var balance: int

    ghost predicate Valid()
      reads this
    {
      ValidWallet(ToDto())
    }

    function ToDto(): (d: WalletDto)
      reads this
      ensures d.id == id && d.userId == userId && d.balance == balance
    {
      WalletDto(id, userId, balance)
    }

    /** The object before the setters have run. */
    constructor Blank()
      ensures id == 0 && userId == 0 && balance == 0
    {
      id, userId, balance := 0, 0, 0;
    }

    /** The `userId` setter. */
    method SetUserId(value: int) returns (o: Outcome)
      modifies this`userId
      ensures value == 0 ==> o == Fail("User ID is required") && userId == old(userId)
      ensures value != 0 ==> o == Pass && userId == value
    {
      if value == 0 {
        return Fail("User ID is required");
      }
      userId := value;
      o := Pass;
    }

    /** The `balance` setter. */
    method SetBalance(value: int) returns (o: Outcome)
      modifies this`balance
      ensures value < 0 ==> o == Fail("Balance cannot be negative") && balance == old(balance)
      ensures value >= 0 ==> o == Pass && balance == value
    {
      if value < 0 {
        return Fail("Balance cannot be negative");
      }
      balance := value;
      o := Pass;
    }

    /** `credit(amount)`: on failure the balance is unchanged. */
    method Credit(amount: int) returns (o: Outcome)
      modifies this`balance
      ensures o.Pass? ==> Credited(old(balance), amount) == Ok(balance)
      ensures old(Valid()) ==> Valid()
      ensures o.Fail? ==> Credited(old(balance), amount) == Err(o.error) && balance == old(balance)
    {
      if amount <= 0 {
        return Fail("Credit amount must be positive");
      }
      o := SetBalance(balance + amount);
    }

    /** `debit(amount)`: on failure the balance is unchanged. */
    method Debit(amount: int) returns (o: Outcome)
      modifies this`balance
      ensures o.Pass? ==> Debited(old(balance), amount) == Ok(balance)
      ensures old(Valid()) ==> Valid()
      ensures o.Fail? ==> Debited(old(balance), amount) == Err(o.error) && balance == old(balance)
    {
      if amount <= 0 {
        return Fail("Debit amount must be positive");
      }
      if balance < amount {
        return Fail("Insufficient balance");
      }
      o := SetBalance(balance - amount);
    }

    /** `new Wallet(n)`: the setters run in order on a fresh object. */
    static method New(n: NewWalletDto) returns (r: Result<Wallet>)
      ensures r.Ok? <==> Admit(n).Ok?
      ensures r.Ok? ==> fresh(r.value) && r.value.ToDto() == Admit(n).value && r.value.Valid()
      ensures r.Err? ==> r.error == Admit(n).error
    {
      var w := new Wallet.Blank();
      w.id := OrDefault(n.id, 0);
      var o := w.SetUserId(n.userId);
      if o.Fail? {
        return Err(o.error);
      }
      o := w.SetBalance(OrDefault(n.balance, 0));
      if o.Fail? {
        return Err(o.error);
      }
      r := Ok(w);
    }

    /** `Wallet.fromDto(dto)`. */
    static method FromDto(d: WalletDto) returns (r: Result<Wallet>)
      ensures ValidWallet(d) ==> r.Ok? && fresh(r.value) && r.value.ToDto() == d
      ensures !ValidWallet(d) ==> r.Err?
      ensures r.Err? ==> r.error == Admit(NewWalletDto(Some(d.id), d.userId, Some(d.balance))).error
    {
      r := New(NewWalletDto(Some(d.id), d.userId, Some(d.balance)));
    }
  }
}
