/** `Transfer.ts`: a payment from a payer to a payee, with a positive
    amount and a date. The clock is a parameter: `now` is the time stamp
    `new Date()` would have. */
module Transfers {
  import opened Wrappers
  import opened JsText

  datatype TransferDto = TransferDto(id: int, payerId: int, payeeId: int, amount: int, date: DateValue)

  /** A transfer as given to the constructor, `id` and `date` optional. */
  datatype NewTransferDto = NewTransferDto(id: Option<int>, payerId: int, payeeId: int, amount: int,
                                           date: Option<DateValue>)

  /** The transfers the setters admit. */
  predicate ValidTransfer(d: TransferDto)
  {
    d.payerId != 0 && d.payeeId != 0 && d.amount > 0 && d.date.DateObject?
  }

  /** `new Transfer(dto)`: `id` defaults to 0 and `date` to now, then the
      setters run in the order payerId, payeeId, amount, date, and the
      first to reject throws its message. */
  function Admit(n: NewTransferDto, now: int): (r: Result<TransferDto>)
    ensures n.payerId == 0 ==> r == Err("Payer ID is required")
    ensures n.payerId != 0 && n.payeeId == 0 ==> r == Err("Payee ID is required")
    ensures n.payerId != 0 && n.payeeId != 0 && n.amount <= 0 ==> r == Err("Amount must be greater than zero")
    ensures n.payerId != 0 && n.payeeId != 0 && n.amount > 0 && n.date == Some(NotADate) ==>
      r == Err("Invalid date format")
    ensures r.Ok? <==> n.payerId != 0 && n.payeeId != 0 && n.amount > 0 && n.date != Some(NotADate)
    ensures r.Ok? ==> ValidTransfer(r.value)
    ensures r.Ok? ==> r.value.id == (if n.id.Some? then n.id.value else 0)
    ensures r.Ok? ==> r.value.payerId == n.payerId && r.value.payeeId == n.payeeId && r.value.amount == n.amount
    ensures r.Ok? && n.date.None? ==> r.value.date == DateObject(now)
    ensures r.Ok? && n.date.Some? ==> r.value.date == n.date.value
  {
    var date := if n.date.Some? then n.date.value else DateObject(now);
    if n.payerId == 0 then Err("Payer ID is required")
    else if n.payeeId == 0 then Err("Payee ID is required")
    else if n.amount <= 0 then Err("Amount must be greater than zero")
    else if !date.DateObject? then Err("Invalid date format")
    else Ok(TransferDto(if n.id.Some? then n.id.value else 0, n.payerId, n.payeeId, n.amount, date))
  }

  /** `fromDto(toDto(t))`: a valid transfer's fields come back unchanged,
      whatever the clock says. */
  lemma DtoRoundTrip(d: TransferDto, now: int)
    requires ValidTransfer(d)
    ensures Admit(NewTransferDto(Some(d.id), d.payerId, d.payeeId, d.amount, Some(d.date)), now) == Ok(d)
  {
  }

  class Transfer {
    var id: int
    var payerId: int
    var payeeId: int
    var amount: int
    var date: DateValue

    function ToDto(): (d: TransferDto)
      reads this
      ensures d.id == id && d.payerId == payerId && d.payeeId == payeeId
      ensures d.amount == amount && d.date == date
    {
      TransferDto(id, payerId, payeeId, amount, date)
    }

    ghost predicate Valid()
      reads this
    {
      ValidTransfer(ToDto())
    }

    /** The object before the setters have run; `date` is still undefined. */
    constructor Blank()
      ensures id == 0 && payerId == 0 && payeeId == 0 && amount == 0 && date == NotADate
    {
      id, payerId, payeeId, amount, date := 0, 0, 0, 0, NotADate;
    }

    method SetPayerId(value: int) returns (o: Outcome)
      modifies this`payerId
      ensures value == 0 ==> o == Fail("Payer ID is required") && payerId == old(payerId)
      ensures value != 0 ==> o == Pass && payerId == value
    {
      if value == 0 {
        return Fail("Payer ID is required");
      }
      payerId := value;
      o := Pass;
    }

    method SetPayeeId(value: int) returns (o: Outcome)
      modifies this`payeeId
      ensures value == 0 ==> o == Fail("Payee ID is required") && payeeId == old(payeeId)
      ensures value != 0 ==> o == Pass && payeeId == value
    {
      if value == 0 {
        return Fail("Payee ID is required");
      }
      payeeId := value;
      o := Pass;
    }

    method SetAmount(value: int) returns (o: Outcome)
      modifies this`amount
      ensures value <= 0 ==> o == Fail("Amount must be greater than zero") && amount == old(amount)
      ensures value > 0 ==> o == Pass && amount == value
    {
      if value <= 0 {
        return Fail("Amount must be greater than zero");
      }
      amount := value;
      o := Pass;
    }

    method SetDate(value: DateValue) returns (o: Outcome)
      modifies this`date
      ensures value.NotADate? ==> o == Fail("Invalid date format") && date == old(date)
      ensures value.DateObject? ==> o == Pass && date == value
    {
      if !value.DateObject? {
        return Fail("Invalid date format");
      }
      date := value;
      o := Pass;
    }

    /** `new Transfer(n)`: the setters run in order on a fresh object. */
    static method New(n: NewTransferDto, now: int) returns (r: Result<Transfer>)
      ensures r.Ok? <==> Admit(n, now).Ok?
      ensures r.Ok? ==> fresh(r.value) && r.value.ToDto() == Admit(n, now).value && r.value.Valid()
      ensures r.Err? ==> r.error == Admit(n, now).error
    {
      var t := new Transfer.Blank();
      t.id := if n.id.Some? then n.id.value else 0;
      var o := t.SetPayerId(n.payerId);
      if o.Fail? { return Err(o.error); }
      o := t.SetPayeeId(n.payeeId);
      if o.Fail? { return Err(o.error); }
      o := t.SetAmount(n.amount);
      if o.Fail? { return Err(o.error); }
      o := t.SetDate(if n.date.Some? then n.date.value else DateObject(now));
      if o.Fail? { return Err(o.error); }
      r := Ok(t);
    }

    /** `Transfer.fromDto(dto)`. */
    static method FromDto(d: TransferDto, now: int) returns (r: Result<Transfer>)
      ensures ValidTransfer(d) ==> r.Ok? && fresh(r.value) && r.value.ToDto() == d
      ensures !ValidTransfer(d) ==> r.Err?
      ensures r.Err? ==> r.error == Admit(NewTransferDto(Some(d.id), d.payerId, d.payeeId, d.amount, Some(d.date)), now).error
    {
      r := New(NewTransferDto(Some(d.id), d.payerId, d.payeeId, d.amount, Some(d.date)), now);
    }
  }
}
