/** `Notification.ts`: a message addressed to a user, with a date. The
    clock is a parameter: `now` is the time stamp `new Date()` would have. */
module Notifications {
  import opened Wrappers
  import opened JsText

  datatype NotificationDto = NotificationDto(id: int, userId: int, message: string, date: DateValue)

  /** A notification as given to the constructor, `id` and `date` optional. */
  datatype NewNotificationDto = NewNotificationDto(id: Option<int>, userId: int, message: string,
                                                   date: Option<DateValue>)

  /** The notifications the setters admit. */
  predicate ValidNotification(d: NotificationDto)
  {
    d.userId != 0 && !IsBlank(d.message) && d.date.DateObject?
  }

  /** `new Notification(dto)`: `id` defaults to 0 and `date` to now, then
      the setters run in the order userId, message, date, and the first to
      reject throws its message. */
  function Admit(n: NewNotificationDto, now: int): (r: Result<NotificationDto>)
    ensures n.userId == 0 ==> r == Err("User ID is required")
    ensures n.userId != 0 && IsBlank(n.message) ==> r == Err("Message is required")
    ensures n.userId != 0 && !IsBlank(n.message) && n.date == Some(NotADate) ==> r == Err("Invalid date format")
    ensures r.Ok? <==> n.userId != 0 && !IsBlank(n.message) && n.date != Some(NotADate)
    ensures r.Ok? ==> ValidNotification(r.value)
    ensures r.Ok? ==> r.value.id == (if n.id.Some? then n.id.value else 0)
    ensures r.Ok? ==> r.value.userId == n.userId && r.value.message == n.message
    ensures r.Ok? && n.date.None? ==> r.value.date == DateObject(now)
    ensures r.Ok? && n.date.Some? ==> r.value.date == n.date.value
  {
    var date := if n.date.Some? then n.date.value else DateObject(now);
    if n.userId == 0 then Err("User ID is required")
    else if IsBlank(n.message) then Err("Message is required")
    else if !date.DateObject? then Err("Invalid date format")
    else Ok(NotificationDto(if n.id.Some? then n.id.value else 0, n.userId, n.message, date))
  }

  /** `fromDto(toDto(n))`: a valid notification's fields come back
      unchanged, whatever the clock says. */
  lemma DtoRoundTrip(d: NotificationDto, now: int)
    requires ValidNotification(d)
    ensures Admit(NewNotificationDto(Some(d.id), d.userId, d.message, Some(d.date)), now) == Ok(d)
  {
  }

  class Notification {
    var id: int
    var userId: int
    var message: string
    var date: DateValue

    function ToDto(): (d: NotificationDto)
      reads this
      ensures d.id == id && d.userId == userId && d.message == message && d.date == date
    {
      NotificationDto(id, userId, message, date)
    }

    ghost predicate Valid()
      reads this
    {
      ValidNotification(ToDto())
    }

    /** The object before the setters have run; `date` is still undefined. */
    constructor Blank()
      ensures id == 0 && userId == 0 && message == [] && date == NotADate
    {
      id, userId, message, date := 0, 0, [], NotADate;
    }

    method SetUserId(value: int) returns (o: Outcome)
      modifies this`userId
      ensures value == 0 ==> o == Fail("User ID is required") && userId == old(userId)
      ensures value != 0 ==> o == Pass && userId == value
    {
      if value == 0 {
        return Fail("User ID is required");
      }
      userId := value;
      o := Pass;
    }

    /** The `message` setter: an empty or all-white-space message is refused. */
    method SetMessage(value: string) returns (o: Outcome)
      modifies this`message
      ensures IsBlank(value) ==> o == Fail("Message is required") && message == old(message)
      ensures !IsBlank(value) ==> o == Pass && message == value
    {
      if IsBlank(value) {
        return Fail("Message is required");
      }
      message := value;
      o := Pass;
    }

    method SetDate(value: DateValue) returns (o: Outcome)
      modifies this`date
      ensures value.NotADate? ==> o == Fail("Invalid date format") && date == old(date)
      ensures value.DateObject? ==> o == Pass && date == value
    {
      if !value.DateObject? {
        return Fail("Invalid date format");
      }
      date := value;
      o := Pass;
    }

    /** `new Notification(n)`: the setters run in order on a fresh object. */
    static method New(n: NewNotificationDto, now: int) returns (r: Result<Notification>)
      ensures r.Ok? <==> Admit(n, now).Ok?
      ensures r.Ok? ==> fresh(r.value) && r.value.ToDto() == Admit(n, now).value && r.value.Valid()
      ensures r.Err? ==> r.error == Admit(n, now).error
    {
      var x := new Notification.Blank();
      x.id := if n.id.Some? then n.id.value else 0;
      var o := x.SetUserId(n.userId);
      if o.Fail? { return Err(o.error); }
      o := x.SetMessage(n.message);
      if o.Fail? { return Err(o.error); }
      o := x.SetDate(if n.date.Some? then n.date.value else DateObject(now));
      if o.Fail? { return Err(o.error); }
      r := Ok(x);
    }

    /** `Notification.fromDto(dto)`. */
    static method FromDto(d: NotificationDto, now: int) returns (r: Result<Notification>)
      ensures ValidNotification(d) ==> r.Ok? && fresh(r.value) && r.value.ToDto() == d
      ensures !ValidNotification(d) ==> r.Err?
      ensures r.Err? ==> r.error == Admit(NewNotificationDto(Some(d.id), d.userId, d.message, Some(d.date)), now).error
    {
      r := New(NewNotificationDto(Some(d.id), d.userId, d.message, Some(d.date)), now);
    }
  }
}
