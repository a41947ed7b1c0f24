/** What the two ride-posting forms share (frontend/src/components/HostRideForm.tsx
    and frontend/src/components/OrganizationFunctions.tsx): the form's fields, the
    validation chain run on submit, JavaScript's parseInt for the rider count, the
    request the form sends and the mapping of a failed request to the message the
    form shows. */
module RideForms {
  import opened Common

  // ---------------------------------------------------------------- parseInt(s, 10)

  predicate IsDigit(c: char)
  {
    '0' <= c <= '9'
  }

  /** The longest prefix of decimal digits. */
  function DigitPrefix(s: string): (d: string)
    ensures |d| <= |s| && d == s[..|d|]
    ensures forall i :: 0 <= i < |d| ==> IsDigit(d[i])
    ensures |d| < |s| ==> !IsDigit(s[|d|])
  {
    if s != [] && IsDigit(s[0]) then [s[0]] + DigitPrefix(s[1..]) else []
  }

  /** The value of a string of decimal digits, most significant first. */
  function DigitsValue(d: string): nat
    requires forall i :: 0 <= i < |d| ==> IsDigit(d[i])
    decreases |d|
  {
    if d == [] then 0
    else
      var last := d[|d| - 1];
      assert IsDigit(last);
      10 * DigitsValue(d[..|d| - 1]) + (last as int - '0' as int)
  }

  /** JavaScript's parseInt with radix 10: leading whitespace is skipped, one
      optional sign is read, then the longest run of digits; anything after it is
      ignored. Without a digit the result is NaN (None). */
  function ParseInt(s: string): (n: Option<int>)
    ensures var t := TrimStart(s);
      n.Some? <==> (t != [] && IsDigit(t[0])) || (|t| >= 2 && (t[0] == '+' || t[0] == '-') && IsDigit(t[1]))
  {
    var t := TrimStart(s);
    var signed := t != [] && (t[0] == '+' || t[0] == '-');
    var body := if signed then t[1..] else t;
    var d := DigitPrefix(body);
    assert d != [] <==> body != [] && IsDigit(body[0]);
    if d == [] then None
    else if signed && t[0] == '-' then Some(-(DigitsValue(d) as int))
    else Some(DigitsValue(d))
  }

  /** The decimal rendering of a natural number, as a number input holds it. */
  function ShowNat(n: nat): (s: string)
    ensures s != [] && forall i :: 0 <= i < |s| ==> IsDigit(s[i])
    decreases n
  {
    if n < 10 then [('0' as int + n) as char] else ShowNat(n / 10) + [('0' as int + n % 10) as char]
  }

  lemma {:induction false} ShowNatValue(n: nat)
    ensures DigitsValue(ShowNat(n)) == n
    decreases n
  {
    if n >= 10 {
      ShowNatValue(n / 10);
      var s := ShowNat(n);
      assert s[..|s| - 1] == ShowNat(n / 10);
    }
  }

  lemma {:induction false} DigitPrefixOf(d: string, rest: string)
    requires forall i :: 0 <= i < |d| ==> IsDigit(d[i])
    requires rest == [] || !IsDigit(rest[0])
    ensures DigitPrefix(d + rest) == d
    decreases |d|
  {
    if d != [] {
      assert (d + rest)[1..] == d[1..] + rest;
      DigitPrefixOf(d[1..], rest);
      assert [d[0]] + d[1..] == d;
    } else {
      assert d + rest == rest;
    }
  }

  /** A string that starts with a digit is read without skipping or a sign. */
  lemma ParseLeadingDigit(s: string)
    requires s != [] && IsDigit(s[0])
    ensures ParseInt(s) == Some(DigitsValue(DigitPrefix(s)))
  {
    assert !IsSpace(s[0]);
    assert TrimStart(s) == s;
  }

  /** parseInt reads back a rendered number, whatever non-digit text follows it
      ("2.5" gives 2, "4 riders" gives 4). */
  lemma ParseShown(n: nat, rest: string)
    requires rest == [] || !IsDigit(rest[0])
    ensures ParseInt(ShowNat(n) + rest) == Some(n)
  {
    var s := ShowNat(n) + rest;
    assert s[0] == ShowNat(n)[0];
    ParseLeadingDigit(s);
    DigitPrefixOf(ShowNat(n), rest);
    ShowNatValue(n);
  }

  /** The rider-count check: parseInt gives an integer from 1 to 10. */
  predicate MaxRidersOk(maxRiders: string)
  {
    var n := ParseInt(maxRiders);
    n.Some? && 1 <= n.value <= 10
  }

  /** A rendered count passes exactly when it is between 1 and 10; the form's
      initial "4" passes. */
  lemma MaxRidersOkShown(n: nat)
    ensures MaxRidersOk(ShowNat(n)) <==> 1 <= n <= 10
    ensures MaxRidersOk(DEFAULT_FIELDS.maxRiders)
  {
    ParseShown(n, "");
    assert ShowNat(n) + "" == ShowNat(n);
    ParseShown(4, "");
    assert ShowNat(4) + "" == DEFAULT_FIELDS.maxRiders;
  }

  // ---------------------------------------------------------------- the form and its request

  /** The price options of the form's select. */
  predicate PriceOptionOk(p: string)
  {
    p == "free" || p == "gas" || p == "gas with fee"
  }

  /** The text fields of a ride form, as typed. */
  datatype RideFormFields = RideFormFields(
    pickupAddress: string,
    destinationAddress: string,
    date: string,
    time: string,
    maxRiders: string,
    priceOption: string,
    comment: string)

  /** One change made in a plain input of a ride form: the two address boxes, the
      date and time pickers, the rider-count box and the price select (the comment
      box has a handler of its own). */
  datatype FieldEdit =
    | PickupTyped(text: string)
    | DestinationTyped(text: string)
    | DateTyped(text: string)
    | TimeTyped(text: string)
    | MaxRidersTyped(text: string)
    | PriceChosen(text: string)

  /** The select offers only the three price options. */
  predicate EditOk(e: FieldEdit)
  {
    e.PriceChosen? ==> PriceOptionOk(e.text)
  }

  /** The fields after an edit: the edited input holds the new text. */
  function Applied(f: RideFormFields, e: FieldEdit): RideFormFields
  {
    match e
    case PickupTyped(t) => f.(pickupAddress := t)
    case DestinationTyped(t) => f.(destinationAddress := t)
    case DateTyped(t) => f.(date := t)
    case TimeTyped(t) => f.(time := t)
    case MaxRidersTyped(t) => f.(maxRiders := t)
    case PriceChosen(t) => f.(priceOption := t)
  }

  /** The state a form starts in and returns to after a successful post. */
  const DEFAULT_FIELDS := RideFormFields("", "", "", "", "4", "free", "")

  /** The comment box's maxLength. */
  const COMMENT_MAX := 500

  /** The body of the create-ride request. `organizationId` is None for a
      driver's own post; `driverComment` None leaves the key out. */
  datatype CreateRideRequest = CreateRideRequest(
    pickupAddress: string,
    destinationAddress: string,
    pickupTime: string,
    priceOption: string,
    maxRiders: int,
    driverId: int,
    organizationId: Option<int>,
    driverComment: Option<string>)

  /** The pickup time sent to the server: `${date}T${time}:00`. */
  function PickupTime(date: string, time: string): (t: string)
    ensures |t| == |date| + |time| + 4
  {
    date + "T" + time + ":00"
  }

  /** The date and the time can be read back from the pickup time: the date input
      holds no 'T', so the first 'T' separates them. */
  lemma PickupTimeSplits(date: string, time: string)
    requires 'T' !in date && 'T' !in time
    ensures SplitOn(PickupTime(date, time), 'T') == [date, time + ":00"]
  {
    assert PickupTime(date, time) == date + ['T'] + (time + ":00");
    SplitAtFirst(date, 'T', time + ":00");
    assert 'T' !in time + ":00";
    SplitNoSeparator(time + ":00", 'T');
  }

  /** `comment.trim() || undefined`. */
  function SentComment(comment: string): (c: Option<string>)
    ensures c.None? <==> IsBlank(comment)
    ensures c.Some? ==> c.value != "" && c.value == Trim(comment)
  {
    BlankIffTrimmedEmpty(comment);
    if IsBlank(comment) then None else Some(Trim(comment))
  }

  /** The comment sent is never blank and carries no surrounding whitespace:
      trimming it again changes nothing. */
  lemma SentCommentTrimmed(comment: string)
    ensures SentComment(comment).Some? ==> Trim(SentComment(comment).value) == SentComment(comment).value
  {
    TrimIdempotent(comment);
  }

  lemma TrimIdempotent(s: string)
    ensures Trim(Trim(s)) == Trim(s)
  {
    var a := TrimStart(s);
    var t := TrimEnd(a);
    if t != [] {
      assert t[0] == a[0];
      assert TrimStart(t) == t;
      assert TrimEnd(t) == t;
    }
  }

  const PICKUP_REQUIRED := "Pickup location is required"
  const DESTINATION_REQUIRED := "Destination location is required"
  const TIME_AND_DATE_REQUIRED := "Time and date are required"
  const LOGIN_REQUIRED := "You must be logged in to host a ride"
  const MAX_RIDERS_RANGE := "Max riders must be between 1 and 10"

  /** The outcome of the validation chain. */
  datatype Checked = Rejected(error: string) | Accepted(request: CreateRideRequest)

  /** handleSubmit's checks, in their order, and the request built once they all
      pass. `userId` is the signed-in user's id (`user?.id`), falsy when 0. */
  function Validate(f: RideFormFields, userId: Option<int>, organizationId: Option<int>): (c: Checked)
    ensures c.Accepted? ==> 1 <= c.request.maxRiders <= 10
  {
    if IsBlank(f.pickupAddress) then Rejected(PICKUP_REQUIRED)
    else if IsBlank(f.destinationAddress) then Rejected(DESTINATION_REQUIRED)
    else if IsBlank(f.time) || IsBlank(f.date) then Rejected(TIME_AND_DATE_REQUIRED)
    else if !Truthy(userId) then Rejected(LOGIN_REQUIRED)
    else if !MaxRidersOk(f.maxRiders) then Rejected(MAX_RIDERS_RANGE)
    else
      Accepted(CreateRideRequest(f.pickupAddress, f.destinationAddress, PickupTime(f.date, f.time),
        f.priceOption, ParseInt(f.maxRiders).value, userId.value, organizationId, SentComment(f.comment)))
  }

  /** The form sends a request exactly when every check passes, and the request
      carries the fields as typed, the combined pickup time, the parsed rider
      count, the user as driver and the trimmed comment. */
  lemma ValidateAccepts(f: RideFormFields, userId: Option<int>, organizationId: Option<int>)
    ensures Validate(f, userId, organizationId).Accepted? <==>
      !IsBlank(f.pickupAddress) && !IsBlank(f.destinationAddress) && !IsBlank(f.time) && !IsBlank(f.date)
      && Truthy(userId) && MaxRidersOk(f.maxRiders)
    ensures Validate(f, userId, organizationId).Accepted? ==>
      var r := Validate(f, userId, organizationId).request;
      && r.pickupAddress == f.pickupAddress && r.destinationAddress == f.destinationAddress
      && r.pickupTime == PickupTime(f.date, f.time) && r.priceOption == f.priceOption
      && ParseInt(f.maxRiders) == Some(r.maxRiders) && 1 <= r.maxRiders <= 10
      && userId == Some(r.driverId) && r.driverId != 0
      && r.organizationId == organizationId && r.driverComment == SentComment(f.comment)
  {
  }

  /** Each error names the first check that fails, in handleSubmit's order. */
  lemma ValidateOrder(f: RideFormFields, userId: Option<int>, organizationId: Option<int>)
    ensures Validate(f, userId, organizationId) == Rejected(PICKUP_REQUIRED) <==> IsBlank(f.pickupAddress)
    ensures Validate(f, userId, organizationId) == Rejected(DESTINATION_REQUIRED) <==>
      !IsBlank(f.pickupAddress) && IsBlank(f.destinationAddress)
    ensures Validate(f, userId, organizationId) == Rejected(TIME_AND_DATE_REQUIRED) <==>
      !IsBlank(f.pickupAddress) && !IsBlank(f.destinationAddress) && (IsBlank(f.time) || IsBlank(f.date))
    ensures Validate(f, userId, organizationId) == Rejected(LOGIN_REQUIRED) <==>
      !IsBlank(f.pickupAddress) && !IsBlank(f.destinationAddress) && !IsBlank(f.time) && !IsBlank(f.date)
      && !Truthy(userId)
    ensures Validate(f, userId, organizationId) == Rejected(MAX_RIDERS_RANGE) <==>
      !IsBlank(f.pickupAddress) && !IsBlank(f.destinationAddress) && !IsBlank(f.time) && !IsBlank(f.date)
      && Truthy(userId) && !MaxRidersOk(f.maxRiders)
  {
  }

  /** The two forms run the same chain: the club form's request is the driver
      form's with the organization filled in, and they reject alike. */
  lemma ClubChainIsHostChain(f: RideFormFields, userId: Option<int>, organizationId: int)
    ensures Validate(f, userId, Some(organizationId)).Accepted? == Validate(f, userId, None).Accepted?
    ensures Validate(f, userId, None).Rejected? ==> Validate(f, userId, Some(organizationId)) == Validate(f, userId, None)
    ensures Validate(f, userId, None).Accepted? ==>
      Validate(f, userId, Some(organizationId)).request == Validate(f, userId, None).request.(organizationId := Some(organizationId))
  {
    var host := Validate(f, userId, None);
    if IsBlank(f.pickupAddress) || IsBlank(f.destinationAddress) || IsBlank(f.time) || IsBlank(f.date)
      || !Truthy(userId) || !MaxRidersOk(f.maxRiders)
    {
      assert host.Rejected?;
    } else {
      assert host.Accepted?;
    }
  }

  // ---------------------------------------------------------------- a failed request

  /** What the create-ride call came back with: success, or an error response
      whose body may carry an `error` message. */
  datatype ApiOutcome = Succeeded | FailedWith(serverError: Option<string>)

  const DRIVER_NOT_FOUND := "Driver not found"
  const NOT_A_DRIVER := "You are not a driver!"

  /** The message shown for a failed post: the server's message, or `generic`
      when there is none (or it is empty), with "Driver not found" reworded. */
  function SubmitError(serverError: Option<string>, generic: string): (msg: string)
    ensures Present(serverError) && serverError.value != DRIVER_NOT_FOUND ==> msg == serverError.value
    ensures serverError == Some(DRIVER_NOT_FOUND) ==> msg == NOT_A_DRIVER
    ensures !Present(serverError) && generic != DRIVER_NOT_FOUND ==> msg == generic
    ensures generic != "" ==> msg != ""
  {
    var m := if Present(serverError) then serverError.value else generic;
    if m == DRIVER_NOT_FOUND then NOT_A_DRIVER else m
  }

  /** The server's wording for a missing driver never reaches the user. */
  lemma DriverNotFoundNeverShown(serverError: Option<string>, generic: string)
    requires generic != DRIVER_NOT_FOUND
    ensures SubmitError(serverError, generic) != DRIVER_NOT_FOUND
  {
    assert NOT_A_DRIVER[0] != DRIVER_NOT_FOUND[0];
  }
}
