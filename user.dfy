/** `User.ts`: a payer or payee account with validated name, CPF/CNPJ,
    email, password and type. Password hashing is a parameter: the stored
    password is whatever the hash function returned. */
module Users {
  import opened Wrappers
  import opened JsText

  datatype UserDto = UserDto(id: int, fullName: string, cpfCnpj: string, email: string,
                             password: string, kind: string)

  /** A user as given to the constructor, `id` optional. */
  datatype NewUserDto = NewUserDto(id: Option<int>, fullName: string, cpfCnpj: string, email: string,
                                   password: string, kind: string)

  // ---------------------------------------------------------------------
  // CPF and CNPJ masks

  /** `\d{3}\.\d{3}\.\d{3}-\d{2}` and `\d{2}\.\d{3}\.\d{3}\/\d{4}-\d{2}`,
      with 'd' standing for a digit. */
  const CpfMask: string := "ddd.ddd.ddd-dd"
  const CnpjMask: string := "dd.ddd.ddd/dddd-dd"

  /** `s` is the mask with each 'd' replaced by a digit. */
  predicate FitsMask(s: string, mask: string)
  {
    |s| == |mask| &&
    forall i | 0 <= i < |s| :: if mask[i] == 'd' then IsDigit(s[i]) else s[i] == mask[i]
  }

  /** `isValidCpfCnpj`: the mask only, check digits are not verified. */
  predicate IsValidCpfCnpj(s: string)
    ensures IsValidCpfCnpj(s) ==> |s| == 14 || |s| == 18
  {
    FitsMask(s, CpfMask) || FitsMask(s, CnpjMask)
  }

  function Slots(mask: string): nat
  {
    if mask == [] then 0 else (if mask[0] == 'd' then 1 else 0) + Slots(mask[1..])
  }

  /** Writes digits into a mask. */
  function Format(mask: string, digits: string): (s: string)
    requires |digits| == Slots(mask)
    ensures |s| == |mask|
  {
    if mask == [] then []
    else if mask[0] == 'd' then [digits[0]] + Format(mask[1..], digits[1..])
    else [mask[0]] + Format(mask[1..], digits)
  }

  function DigitsOf(s: string): string
  {
    if s == [] then [] else (if IsDigit(s[0]) then [s[0]] else []) + DigitsOf(s[1..])
  }

  predicate NoDigits(mask: string)
  {
    forall i | 0 <= i < |mask| :: mask[i] != 'd' ==> !IsDigit(mask[i])
  }

  /** Any sequence of digits of the right length, written into the mask,
      passes the check. */
  lemma {:induction false} FormatFitsMask(mask: string, digits: string)
    requires |digits| == Slots(mask) && forall i | 0 <= i < |digits| :: IsDigit(digits[i])
    ensures FitsMask(Format(mask, digits), mask)
    decreases |mask|
  {
    if mask != [] {
      var f := Format(mask, digits);
      var rest := if mask[0] == 'd' then digits[1..] else digits;
      FormatFitsMask(mask[1..], rest);
      assert f[1..] == Format(mask[1..], rest);
      forall i | 0 <= i < |f| ensures if mask[i] == 'd' then IsDigit(f[i]) else f[i] == mask[i] {
        if i > 0 {
          assert f[i] == f[1..][i - 1] && mask[i] == mask[1..][i - 1];
        }
      }
    }
  }

  /** A string that passes the check is its own digits written into the
      mask: the check accepts exactly the formatted numbers. */
  lemma {:induction false} FitsMaskIsFormatted(s: string, mask: string)
    requires NoDigits(mask) && FitsMask(s, mask)
    ensures |DigitsOf(s)| == Slots(mask) && Format(mask, DigitsOf(s)) == s
    decreases |mask|
  {
    if mask != [] {
      assert NoDigits(mask[1..]) by {
        forall i | 0 <= i < |mask[1..]| ensures mask[1..][i] != 'd' ==> !IsDigit(mask[1..][i]) {
          assert mask[1..][i] == mask[i + 1];
        }
      }
      assert FitsMask(s[1..], mask[1..]) by {
        forall i | 0 <= i < |s[1..]|
          ensures if mask[1..][i] == 'd' then IsDigit(s[1..][i]) else s[1..][i] == mask[1..][i]
        {
          assert s[1..][i] == s[i + 1] && mask[1..][i] == mask[i + 1];
        }
      }
      FitsMaskIsFormatted(s[1..], mask[1..]);
      assert if mask[0] == 'd' then IsDigit(s[0]) else s[0] == mask[0];
      if mask[0] == 'd' {
        assert DigitsOf(s) == [s[0]] + DigitsOf(s[1..]);
        assert DigitsOf(s)[1..] == DigitsOf(s[1..]);
      } else {
        assert !IsDigit(s[0]);
        assert DigitsOf(s) == DigitsOf(s[1..]);
      }
      assert s == [s[0]] + s[1..];
    }
  }

  /** Both masks meet `FitsMaskIsFormatted`'s requirement. */
  lemma MasksHaveNoDigits()
    ensures NoDigits(CpfMask) && NoDigits(CnpjMask)
  {
  }

  // ---------------------------------------------------------------------
  // Email and type

  /** `[^\s@]+` without the `+`: no whitespace and no '@'. */
  predicate Plain(t: string)
  {
    forall i | 0 <= i < |t| :: !IsWhitespace(t[i]) && t[i] != '@'
  }

  /** `[^\s@]+\.[^\s@]+`. */
  predicate IsDomain(d: string)
  {
    Plain(d) && exists j | 0 < j < |d| - 1 :: d[j] == '.'
  }

  /** `isValidEmail`: `^[^\s@]+@[^\s@]+\.[^\s@]+$`. */
  predicate IsValidEmail(s: string)
    ensures IsValidEmail(s) ==> '@' in s && |s| >= 5
  {
    exists i | 0 < i < |s| :: s[i] == '@' && Plain(s[..i]) && IsDomain(s[i + 1..])
  }

  /** The same set of strings described in words: no whitespace, exactly
      one '@', something before it, and after it a '.' that is neither the
      first nor the last character. */
  ghost predicate EmailShape(s: string)
  {
    (forall k | 0 <= k < |s| :: !IsWhitespace(s[k])) &&
    exists i | 0 <= i < |s| && s[i] == '@' ::
      (forall k | 0 <= k < |s| && s[k] == '@' :: k == i) &&
      i > 0 &&
      exists j | i + 1 < j < |s| - 1 :: s[j] == '.'
  }

  lemma EmailRegexMeansShape(s: string)
    ensures IsValidEmail(s) <==> EmailShape(s)
  {
    if IsValidEmail(s) {
      var i :| 0 < i < |s| && s[i] == '@' && Plain(s[..i]) && IsDomain(s[i + 1..]);
      var d := s[i + 1..];
      var j :| 0 < j < |d| - 1 && d[j] == '.';
      assert s[i + 1 + j] == '.';
      forall k | 0 <= k < |s| ensures !IsWhitespace(s[k]) && (s[k] == '@' ==> k == i) {
        if k < i {
          assert s[k] == s[..i][k];
        } else if k > i {
          assert s[k] == d[k - i - 1];
        }
      }
    }
    if EmailShape(s) {
      var i :| 0 <= i < |s| && s[i] == '@' &&
        (forall k | 0 <= k < |s| && s[k] == '@' :: k == i) && i > 0 &&
        exists j | i + 1 < j < |s| - 1 :: s[j] == '.';
      var j :| i + 1 < j < |s| - 1 && s[j] == '.';
      var d := s[i + 1..];
      assert d[j - i - 1] == '.';
      assert Plain(s[..i]) by {
        forall k | 0 <= k < i ensures !IsWhitespace(s[..i][k]) && s[..i][k] != '@' {
          assert s[..i][k] == s[k];
        }
      }
      assert Plain(d) by {
        forall k | 0 <= k < |d| ensures !IsWhitespace(d[k]) && d[k] != '@' {
          assert d[k] == s[i + 1 + k];
        }
      }
      assert IsDomain(d);
    }
  }

  /** `isValidType`. */
  predicate IsValidType(t: string)
    ensures IsValidType(t) ==> t != [] && |t| == 5
  {
    t == "payer" || t == "payee"
  }

  /** What `hashPassword` returns: a salt and a hash joined by ':'. */
  predicate IsHash(h: string)
  {
    ':' in h
  }

  // ---------------------------------------------------------------------
  // Whole users

  /** The users the setters admit. */
  predicate ValidUser(d: UserDto)
  {
    d.fullName != [] && IsValidCpfCnpj(d.cpfCnpj) && IsValidEmail(d.email) &&
    IsHash(d.password) && IsValidType(d.kind)
  }

  /** `new User(dto)` with `hashed` as what `hashPassword` returns: `id`
      defaults to 0, then the setters run in the order fullName, cpfCnpj,
      email, password, type, and the first to reject throws its message. */
  function Admit(n: NewUserDto, hashed: string): (r: Result<UserDto>)
    requires IsHash(hashed)
    ensures n.fullName == [] ==> r == Err("Full name is required")
    ensures n.fullName != [] && !IsValidCpfCnpj(n.cpfCnpj) ==> r == Err("Invalid CPF/CNPJ format")
    ensures n.fullName != [] && IsValidCpfCnpj(n.cpfCnpj) && !IsValidEmail(n.email) ==>
      r == Err("Invalid email format")
    ensures n.fullName != [] && IsValidCpfCnpj(n.cpfCnpj) && IsValidEmail(n.email) && IsBlank(n.password) ==>
      r == Err("Password is required")
    ensures n.fullName != [] && IsValidCpfCnpj(n.cpfCnpj) && IsValidEmail(n.email) && !IsBlank(n.password) ==>
      (n.kind == [] ==> r == Err("User type is required")) &&
      (n.kind != [] && !IsValidType(n.kind) ==> r == Err("Invalid type; must be 'payer' or 'payee'"))
    ensures r.Ok? <==> n.fullName != [] && IsValidCpfCnpj(n.cpfCnpj) && IsValidEmail(n.email) &&
                       !IsBlank(n.password) && IsValidType(n.kind)
    ensures r.Ok? ==> ValidUser(r.value)
    ensures r.Ok? ==> r.value == UserDto(if n.id.Some? then n.id.value else 0, n.fullName, n.cpfCnpj, n.email,
                                         hashed, n.kind)
  {
    if n.fullName == [] then Err("Full name is required")
    else if !IsValidCpfCnpj(n.cpfCnpj) then Err("Invalid CPF/CNPJ format")
    else if !IsValidEmail(n.email) then Err("Invalid email format")
    else if IsBlank(n.password) then Err("Password is required")
    else if n.kind == [] then Err("User type is required")
    else if !IsValidType(n.kind) then Err("Invalid type; must be 'payer' or 'payee'")
    else Ok(UserDto(if n.id.Some? then n.id.value else 0, n.fullName, n.cpfCnpj, n.email, hashed, n.kind))
  }

  /** A stored hash is never blank, since ':' is not whitespace. */
  lemma HashIsNotBlank(h: string)
    requires IsHash(h)
    ensures !IsBlank(h)
  {
    var i :| 0 <= i < |h| && h[i] == ':';
  }

  /** `fromDto(toDto(u))`: every field but the password comes back; the
      stored hash is hashed again. */
  lemma DtoRoundTrip(d: UserDto, rehashed: string)
    requires ValidUser(d) && IsHash(rehashed)
    ensures Admit(NewUserDto(Some(d.id), d.fullName, d.cpfCnpj, d.email, d.password, d.kind), rehashed)
            == Ok(d.(password := rehashed))
  {
    HashIsNotBlank(d.password);
  }

  class User {
    var id: int
    var fullName: string
    var cpfCnpj: string
    var email: string
    var password: string
    var kind: string

    function ToDto(): (d: UserDto)
      reads this
      ensures d.id == id && d.fullName == fullName && d.cpfCnpj == cpfCnpj
      ensures d.email == email && d.password == password && d.kind == kind
    {
      UserDto(id, fullName, cpfCnpj, email, password, kind)
    }

    ghost predicate Valid()
      reads this
    {
      ValidUser(ToDto())
    }

    /** The object before the setters have run. */
    constructor Blank()
      ensures id == 0 && fullName == [] && cpfCnpj == [] && email == [] && password == [] && kind == []
    {
      id, fullName, cpfCnpj, email, password, kind := 0, [], [], [], [], [];
    }

    method SetFullName(value: string) returns (o: Outcome)
      modifies this`fullName
      ensures value == [] ==> o == Fail("Full name is required") && fullName == old(fullName)
      ensures value != [] ==> o == Pass && fullName == value
    {
      if value == [] {
        return Fail("Full name is required");
      }
      fullName := value;
      o := Pass;
    }

    method SetCpfCnpj(value: string) returns (o: Outcome)
      modifies this`cpfCnpj
      ensures !IsValidCpfCnpj(value) ==> o == Fail("Invalid CPF/CNPJ format") && cpfCnpj == old(cpfCnpj)
      ensures IsValidCpfCnpj(value) ==> o == Pass && cpfCnpj == value
    {
      if !IsValidCpfCnpj(value) {
        return Fail("Invalid CPF/CNPJ format");
      }
      cpfCnpj := value;
      o := Pass;
    }

    method SetEmail(value: string) returns (o: Outcome)
      modifies this`email
      ensures !IsValidEmail(value) ==> o == Fail("Invalid email format") && email == old(email)
      ensures IsValidEmail(value) ==> o == Pass && email == value
    {
      if !IsValidEmail(value) {
        return Fail("Invalid email format");
      }
      email := value;
      o := Pass;
    }

    /** The `password` setter: a blank password is refused; otherwise its
        hash is stored. */
    method SetPassword(value: string, hashed: string) returns (o: Outcome)
      requires IsHash(hashed)
      modifies this`password
      ensures IsBlank(value) ==> o == Fail("Password is required") && password == old(password)
      ensures !IsBlank(value) ==> o == Pass && password == hashed
    {
      if IsBlank(value) {
        return Fail("Password is required");
      }
      password := hashed;
      o := Pass;
    }

    method SetKind(value: string) returns (o: Outcome)
      modifies this`kind
      ensures value == [] ==> o == Fail("User type is required") && kind == old(kind)
      ensures value != [] && !IsValidType(value) ==>
        o == Fail("Invalid type; must be 'payer' or 'payee'") && kind == old(kind)
      ensures IsValidType(value) ==> o == Pass && kind == value
    {
      if value == [] {
        return Fail("User type is required");
      }
      if !IsValidType(value) {
        return Fail("Invalid type; must be 'payer' or 'payee'");
      }
      kind := value;
      o := Pass;
    }

    /** `new User(n)`: the setters run in order on a fresh object. */
    static method New(n: NewUserDto, hashed: string) returns (r: Result<User>)
      requires IsHash(hashed)
      ensures r.Ok? <==> Admit(n, hashed).Ok?
      ensures r.Ok? ==> fresh(r.value) && r.value.ToDto() == Admit(n, hashed).value && r.value.Valid()
      ensures r.Err? ==> r.error == Admit(n, hashed).error
    {
      ghost var a := Admit(n, hashed);
      var u := new User.Blank();
      u.id := if n.id.Some? then n.id.value else 0;
      var o := u.SetFullName(n.fullName);
      if o.Fail? { return Err(o.error); }
      o := u.SetCpfCnpj(n.cpfCnpj);
      if o.Fail? { return Err(o.error); }
      o := u.SetEmail(n.email);
      if o.Fail? { return Err(o.error); }
      o := u.SetPassword(n.password, hashed);
      if o.Fail? { return Err(o.error); }
      o := u.SetKind(n.kind);
      if o.Fail? { return Err(o.error); }
      r := Ok(u);
    }

    /** `User.fromDto(dto)`; the stored hash goes through the password
        setter again and is replaced by `rehashed`. */
    static method FromDto(d: UserDto, rehashed: string) returns (r: Result<User>)
      requires IsHash(rehashed)
      ensures ValidUser(d) ==> r.Ok? && fresh(r.value) && r.value.ToDto() == d.(password := rehashed)
      ensures var a := Admit(NewUserDto(Some(d.id), d.fullName, d.cpfCnpj, d.email, d.password, d.kind), rehashed);
        (r.Ok? <==> a.Ok?) && (r.Err? ==> r.error == a.error)
    {
      if ValidUser(d) {
        DtoRoundTrip(d, rehashed);
      }
      r := New(NewUserDto(Some(d.id), d.fullName, d.cpfCnpj, d.email, d.password, d.kind), rehashed);
    }
  }
}
