/** The view models: `EventViewModel`, `TicketViewModel` and `AuthViewModel`.

    Each holds its observable state (`MutableLiveData` fields) as fields of a
    class. An operation that calls a repository is split in two, as the
    asynchronous callback splits it: the first method validates, sets
    `isLoading` and returns the request it hands to the repository (None when
    it makes no call); the callback method receives the repository's outcome
    and posts the result. The clock is a parameter. */
module ViewModels {
  import opened Strings
  import opened Entities
  import opened TicketCodes
  import Q = RoomQueries
  import R = Repositories
  import RoomDb

  // ---------------------------------------------------------------- filters

  /** The bounds of a date filter; 0 means "no bound". */
  datatype DateBounds = DateBounds(minDate: int, maxDate: int)

  /** The filter-type mapping of both `setFilters`: "UPCOMING" bounds from
      below by now, "PAST" from above, anything else (null included) not at all. */
  function Bounds(filterType: Option<string>, now: int): (b: DateBounds)
    ensures b.minDate == 0 || b.minDate == now
    ensures b.maxDate == 0 || b.maxDate == now
    ensures now != 0 ==> (b.minDate != 0 <==> filterType == Some("UPCOMING"))
    ensures now != 0 ==> (b.maxDate != 0 <==> filterType == Some("PAST"))
  {
    if filterType == Some("UPCOMING") then DateBounds(now, 0)
    else if filterType == Some("PAST") then DateBounds(0, now)
    else DateBounds(0, 0)
  }

  /** With a clock past the epoch, the bounds select exactly the events at or
      after now, at or before now, or all of them. */
  lemma BoundsSelect(filterType: Option<string>, now: int, e: EventRecord)
    requires now > 0
    ensures var b := Bounds(filterType, now);
      && (filterType == Some("UPCOMING") ==> (Q.EventMatches(e, None, None, b.minDate, b.maxDate) <==> e.timestamp >= now))
      && (filterType == Some("PAST") ==> (Q.EventMatches(e, None, None, b.minDate, b.maxDate) <==> e.timestamp <= now))
      && (filterType != Some("UPCOMING") && filterType != Some("PAST") ==> Q.EventMatches(e, None, None, b.minDate, b.maxDate))
  {
  }

  /** A null or empty text filter means "unset". */
  function Unset(s: Option<string>): (r: Option<string>)
    ensures r.None? <==> s.None? || s.value == ""
    ensures r.Some? ==> r == s
  {
    if s.Some? && s.value != "" then s else None
  }

  // ---------------------------------------------------------------- EventViewModel

  /** `EventViewModel.FilterParams`. */
  datatype EventFilter = EventFilter(query: Option<string>, location: Option<string>, bounds: DateBounds)

  /** `OperationResult`. */
  datatype OperationResult = OperationResult(success: bool, message: string)

  /** The validation of `createEvent`. */
  function CreateEventError(title: Option<string>, date: Option<string>, location: Option<string>,
                            description: Option<string>): (e: Option<string>)
    ensures e.None? <==> !IsBlank(title) && !IsBlank(date) && !IsBlank(location) && !IsBlank(description)
    ensures IsBlank(title) ==> e == Some("Title is required")
    ensures !IsBlank(title) && IsBlank(date) ==> e == Some("Date is required")
    ensures !IsBlank(title) && !IsBlank(date) && IsBlank(location) ==> e == Some("Location is required")
    ensures !IsBlank(title) && !IsBlank(date) && !IsBlank(location) && IsBlank(description) ==>
      e == Some("Description is required")
  {
    if IsBlank(title) then Some("Title is required")
    else if IsBlank(date) then Some("Date is required")
    else if IsBlank(location) then Some("Location is required")
    else if IsBlank(description) then Some("Description is required")
    else None
  }

  /** The result posted when the repository reports an update. */
  function UpdateOutcome(outcome: Result<bool>): (r: OperationResult)
    ensures r.success <==> outcome == Ok(true)
    ensures outcome == Ok(false) ==> r.message == "Failed to update event"
    ensures outcome.Err? ==> r.message == outcome.error
  {
    match outcome
    case Ok(true) => OperationResult(true, "Event updated successfully")
    case Ok(false) => OperationResult(false, "Failed to update event")
    case Err(e) => OperationResult(false, e)
  }

  /** The result posted for a create or delete: success with the fixed
      message, or the repository's error. */
  function DoneOutcome<T>(outcome: Result<T>, done: string): (r: OperationResult)
    ensures r.success <==> outcome.Ok?
    ensures r.message == (if outcome.Ok? then done else outcome.error)
  {
    if outcome.Ok? then OperationResult(true, done) else OperationResult(false, outcome.error)
  }

  class EventViewModel {
    var filter: EventFilter
    var operationResult: Option<OperationResult>
    var isLoading: bool

    /** A new view model starts with empty filters and, through its
        repository, backfills the timestamps of the stored events; `year` and
        `parse` are the clock's year and the date parser of that backfill. */
    constructor (store: RoomDb.RoomStore, year: int, parse: R.DateParser)
      requires store.Valid()
      modifies store
      ensures filter == EventFilter(None, None, DateBounds(0, 0))
      ensures operationResult.None? && !isLoading
      ensures store.Valid()
      ensures store.State() == old(store.State()).(events := R.BackfillAll(old(store.State()).events, year, parse))
    {
      filter := EventFilter(None, None, DateBounds(0, 0));
      operationResult := None;
      isLoading := false;
      new;
      R.EnsureTimestampsPopulated(store, year, parse);
    }

    /** `setFilters`, with the clock reading as `now`. */
    method SetFilters(query: Option<string>, location: Option<string>, filterType: Option<string>, now: int)
      modifies this
      ensures filter == EventFilter(Unset(query), Unset(location), Bounds(filterType, now))
      ensures operationResult == old(operationResult) && isLoading == old(isLoading)
    {
      filter := EventFilter(Unset(query), Unset(location), Bounds(filterType, now));
    }

    /** `createEvent`: the new event handed to the repository, or None when
        validation fails, in which case only the failure is posted. */
    method CreateEvent(title: Option<string>, date: Option<string>, location: Option<string>,
                       description: Option<string>) returns (request: Option<EventValue>)
      modifies this
      ensures filter == old(filter)
      ensures CreateEventError(title, date, location, description).Some? ==>
        && request.None? && isLoading == old(isLoading)
        && operationResult == Some(OperationResult(false, CreateEventError(title, date, location, description).value))
      ensures CreateEventError(title, date, location, description).None? ==>
        && request == Some(EventValue(0, title, date, location, description, 0, Some(STATUS_ACTIVE)))
        && isLoading && operationResult == old(operationResult)
    {
      var error := CreateEventError(title, date, location, description);
      if error.Some? {
        operationResult := Some(OperationResult(false, error.value));
        return None;
      }
      isLoading := true;
      request := Some(EventValue(0, title, date, location, description, 0, Some(STATUS_ACTIVE)));
    }

    /** The callback of `createEvent`. */
    method OnEventCreated(outcome: Result<int>)
      modifies this
      ensures !isLoading && filter == old(filter)
      ensures operationResult == Some(DoneOutcome(outcome, "Event created successfully"))
    {
      isLoading := false;
      operationResult := Some(DoneOutcome(outcome, "Event created successfully"));
    }

    /** `updateEvent`: a null event is refused without a repository call. */
    method UpdateEvent(event: Option<EventValue>) returns (request: Option<EventValue>)
      modifies this
      ensures filter == old(filter)
      ensures event.None? ==>
        && request.None? && isLoading == old(isLoading)
        && operationResult == Some(OperationResult(false, "Invalid event"))
      ensures event.Some? ==> request == event && isLoading && operationResult == old(operationResult)
    {
      if event.None? {
        operationResult := Some(OperationResult(false, "Invalid event"));
        return None;
      }
      isLoading := true;
      request := event;
    }

    /** The callback of `updateEvent`. */
    method OnEventUpdated(outcome: Result<bool>)
      modifies this
      ensures !isLoading && filter == old(filter)
      ensures operationResult == Some(UpdateOutcome(outcome))
    {
      isLoading := false;
      operationResult := Some(UpdateOutcome(outcome));
    }

    /** `deleteEvent`: always calls the repository. */
    method DeleteEvent(eventId: int) returns (request: int)
      modifies this
      ensures request == eventId && isLoading
      ensures filter == old(filter) && operationResult == old(operationResult)
    {
      isLoading := true;
      request := eventId;
    }

    /** The callback of `deleteEvent`. */
    method OnEventDeleted(outcome: Result<()>)
      modifies this
      ensures !isLoading && filter == old(filter)
      ensures operationResult == Some(DoneOutcome(outcome, "Event deleted successfully"))
    {
      isLoading := false;
      operationResult := Some(DoneOutcome(outcome, "Event deleted successfully"));
    }
  }

  // ---------------------------------------------------------------- TicketViewModel

  /** `TicketViewModel.TicketFilterParams`. */
  datatype TicketFilter = TicketFilter(userId: int, query: Option<string>, bounds: DateBounds)

  /** `PurchaseResult`. */
  datatype PurchaseResult = PurchaseResult(success: bool, message: string, ticketCode: Option<string>)

  /** The guard of `purchaseTicket`. */
  function PurchaseError(userId: int, eventId: int): (e: Option<string>)
    ensures e.None? <==> userId > 0 && eventId > 0
    ensures e.Some? ==> e.value == "Invalid user or event"
  {
    if userId <= 0 || eventId <= 0 then Some("Invalid user or event") else None
  }

  /** The result posted when the repository reports a purchase: the code on
      success, no code on error. */
  function PurchaseMessage(outcome: Result<string>): (r: PurchaseResult)
    ensures r.success <==> outcome.Ok?
    ensures r.ticketCode.Some? <==> r.success
    ensures outcome.Ok? ==> r.ticketCode == Some(outcome.value)
    ensures outcome.Err? ==> r.message == outcome.error
  {
    match outcome
    case Ok(code) => PurchaseResult(true, "Ticket purchased successfully", Some(code))
    case Err(e) => PurchaseResult(false, e, None)
  }

  /** A code the view model shows after the repository's purchase has the
      documented ticket-code format. */
  lemma ShownCodeValid(db: RoomDb.Db, userId: int, eventId: int, clock: nat -> int, draws: nat -> Draw)
    requires PurchaseError(userId, eventId).None? && forall k: nat :: clock(k) >= 0
    ensures var shown := PurchaseMessage(R.PurchaseOutcome(db, userId, eventId, clock, draws).1);
      shown.ticketCode.Some? ==> IsValidFormat(shown.ticketCode)
  {
    if R.PurchaseOutcome(db, userId, eventId, clock, draws).1.Ok? {
      R.PurchasedCodeValid(db, userId, eventId, clock, draws);
    }
  }

  class TicketViewModel {
    var filter: Option<TicketFilter>
    var purchaseResult: Option<PurchaseResult>
    var isLoading: bool

    constructor ()
      ensures filter.None? && purchaseResult.None? && !isLoading
    {
      filter := None;
      purchaseResult := None;
      isLoading := false;
    }

    /** `setFilters`, with the clock reading as `now`. */
    method SetFilters(userId: int, query: Option<string>, filterType: Option<string>, now: int)
      modifies this
      ensures filter == Some(TicketFilter(userId, Unset(query), Bounds(filterType, now)))
      ensures purchaseResult == old(purchaseResult) && isLoading == old(isLoading)
    {
      filter := Some(TicketFilter(userId, Unset(query), Bounds(filterType, now)));
    }

    /** `purchaseTicket`: the ids handed to the repository, or None when the
        guard refuses them, in which case only the failure is posted. */
    method PurchaseTicket(userId: int, eventId: int) returns (request: Option<(int, int)>)
      modifies this
      ensures filter == old(filter)
      ensures PurchaseError(userId, eventId).Some? ==>
        && request.None? && isLoading == old(isLoading)
        && purchaseResult == Some(PurchaseResult(false, "Invalid user or event", None))
      ensures PurchaseError(userId, eventId).None? ==>
        && request == Some((userId, eventId)) && isLoading
        && purchaseResult == old(purchaseResult)
    {
      var error := PurchaseError(userId, eventId);
      if error.Some? {
        purchaseResult := Some(PurchaseResult(false, error.value, None));
        return None;
      }
      isLoading := true;
      request := Some((userId, eventId));
    }

    /** The callback of `purchaseTicket`. */
    method OnPurchased(outcome: Result<string>)
      modifies this
      ensures !isLoading && filter == old(filter)
      ensures purchaseResult == Some(PurchaseMessage(outcome))
    {
      isLoading := false;
      purchaseResult := Some(PurchaseMessage(outcome));
    }

    /** `getTicketsForUser`: the filters are reset to the user's unfiltered
        list only when none are set or they belong to another user, so a
        search in progress for the same user survives. */
    method GetTicketsForUser(userId: int, now: int)
      modifies this
      ensures filter.Some? && filter.value.userId == userId
      ensures old(filter).Some? && old(filter).value.userId == userId ==> filter == old(filter)
      ensures old(filter).None? || old(filter).value.userId != userId ==>
        filter == Some(TicketFilter(userId, None, DateBounds(0, 0)))
      ensures purchaseResult == old(purchaseResult) && isLoading == old(isLoading)
    {
      if filter.None? || filter.value.userId != userId {
        SetFilters(userId, None, Some("ALL"), now);
      }
    }
  }

  // ---------------------------------------------------------------- AuthViewModel

  /** `AuthResult`. */
  datatype AuthResult = AuthResult(success: bool, message: string, user: Option<User>)

  /** The validation of `login`; `validEmail` is the platform's email pattern. */
  function LoginError(email: Option<string>, password: Option<string>, validEmail: string -> bool): (e: Option<string>)
    ensures e.None? <==> !IsBlank(email) && !IsBlank(password) && validEmail(email.value)
    ensures IsBlank(email) ==> e == Some("Email is required")
    ensures !IsBlank(email) && IsBlank(password) ==> e == Some("Password is required")
    ensures !IsBlank(email) && !IsBlank(password) && !validEmail(email.value) ==> e == Some("Invalid email format")
  {
    if IsBlank(email) then Some("Email is required")
    else if IsBlank(password) then Some("Password is required")
    else if !validEmail(email.value) then Some("Invalid email format")
    else None
  }

  /** The password rule of `register`: present and at least six UTF-16 code
      units long, counted before any trimming. */
  predicate PasswordTooShort(password: Option<string>) {
    password.None? || Utf16Length(password.value) < 6
  }

  /** The length is Java's: three characters outside the Basic Multilingual
      Plane make six code units, enough for the rule, while five plain
      characters are not. */
  lemma PasswordLengthInUnits()
    ensures !PasswordTooShort(Some("\U{1F600}\U{1F600}\U{1F600}"))
    ensures PasswordTooShort(Some("abcde"))
  {
    var s := "\U{1F600}\U{1F600}\U{1F600}";
    assert s[1..][1..][1..] == [];
  }

  /** The validation of `register`. */
  function RegisterError(firstName: Option<string>, lastName: Option<string>, email: Option<string>,
                         password: Option<string>, confirmPassword: Option<string>, phone: Option<string>,
                         validEmail: string -> bool): (e: Option<string>)
    ensures e.None? <==>
      && !IsBlank(firstName) && !IsBlank(lastName) && !IsBlank(email) && validEmail(email.value)
      && !PasswordTooShort(password) && confirmPassword == password && !IsBlank(phone)
    ensures IsBlank(firstName) ==> e == Some("First name is required")
    ensures !IsBlank(firstName) && IsBlank(lastName) ==> e == Some("Last name is required")
    ensures !IsBlank(firstName) && !IsBlank(lastName) && IsBlank(email) ==> e == Some("Email is required")
    ensures !IsBlank(firstName) && !IsBlank(lastName) && !IsBlank(email) && !validEmail(email.value) ==>
      e == Some("Invalid email format")
    ensures (!IsBlank(firstName) && !IsBlank(lastName) && !IsBlank(email) && validEmail(email.value)
      && PasswordTooShort(password)) ==> e == Some("Password must be at least 6 characters")
    ensures (!IsBlank(firstName) && !IsBlank(lastName) && !IsBlank(email) && validEmail(email.value)
      && !PasswordTooShort(password) && confirmPassword != password) ==> e == Some("Passwords do not match")
    ensures e == Some("Phone number is required") <==>
      && !IsBlank(firstName) && !IsBlank(lastName) && !IsBlank(email) && validEmail(email.value)
      && !PasswordTooShort(password) && confirmPassword == password && IsBlank(phone)
  {
    if IsBlank(firstName) then Some("First name is required")
    else if IsBlank(lastName) then Some("Last name is required")
    else if IsBlank(email) then Some("Email is required")
    else if !validEmail(email.value) then Some("Invalid email format")
    else if PasswordTooShort(password) then Some("Password must be at least 6 characters")
    else if confirmPassword != password then Some("Passwords do not match")
    else if IsBlank(phone) then Some("Phone number is required")
    else None
  }

  /** The length rule counts spaces: a password of six or more spaces passes
      registration, although login refuses it as blank. */
  lemma BlankPasswordRegisters(firstName: Option<string>, lastName: Option<string>, email: Option<string>,
                                password: string, phone: Option<string>, validEmail: string -> bool)
    requires !IsBlank(firstName) && !IsBlank(lastName) && !IsBlank(email) && validEmail(email.value)
    requires !IsBlank(phone)
    requires |password| >= 6 && IsWhitespaceOnly(password)
    ensures RegisterError(firstName, lastName, email, Some(password), Some(password), phone, validEmail).None?
    ensures LoginError(email, Some(password), validEmail) == Some("Password is required")
  {
    TrimEmptyIff(password);
  }

  /** `Long.intValue`: the low 32 bits as a signed integer. */
  function IntValue(l: int): (i: int)
    ensures -0x8000_0000 <= i < 0x8000_0000
    ensures (i - l) % 0x1_0000_0000 == 0
  {
    var m := l % 0x1_0000_0000;
    if m >= 0x8000_0000 then m - 0x1_0000_0000 else m
  }

  /** Ids that fit in an `int` come through `intValue` unchanged. */
  lemma IntValueInRange(l: int)
    requires -0x8000_0000 <= l < 0x8000_0000
    ensures IntValue(l) == l
  {
  }

  /** The user posted after a registration: the generated id with every other
      field as entered. */
  function RegisteredUser(entered: User, userId: int): (u: User)
    ensures u.id == IntValue(userId)
    ensures u.(id := entered.id) == entered
  {
    entered.(id := IntValue(userId))
  }

  /** The result posted for a login or registration: the user on success,
      the repository's error otherwise. */
  function AuthOutcome(outcome: Result<User>, done: string): (r: AuthResult)
    ensures r.success <==> outcome.Ok?
    ensures r.user.Some? <==> outcome.Ok?
    ensures outcome.Ok? ==> r.user == Some(outcome.value) && r.message == done
    ensures outcome.Err? ==> r.message == outcome.error
  {
    match outcome
    case Ok(u) => AuthResult(true, done, Some(u))
    case Err(e) => AuthResult(false, e, None)
  }

  class AuthViewModel {
    var loginResult: Option<AuthResult>
    var registerResult: Option<AuthResult>
    var isLoading: bool

    constructor ()
      ensures loginResult.None? && registerResult.None? && !isLoading
    {
      loginResult := None;
      registerResult := None;
      isLoading := false;
    }

    /** `login`: the credentials handed to the repository, or None when
        validation fails, in which case only the failure is posted. */
    method Login(email: Option<string>, password: Option<string>, validEmail: string -> bool)
      returns (request: Option<(string, string)>)
      modifies this
      ensures registerResult == old(registerResult)
      ensures LoginError(email, password, validEmail).Some? ==>
        && request.None? && isLoading == old(isLoading)
        && loginResult == Some(AuthResult(false, LoginError(email, password, validEmail).value, None))
      ensures LoginError(email, password, validEmail).None? ==>
        && request == Some((email.value, password.value))
        && isLoading && loginResult == old(loginResult)
    {
      var error := LoginError(email, password, validEmail);
      if error.Some? {
        loginResult := Some(AuthResult(false, error.value, None));
        return None;
      }
      isLoading := true;
      request := Some((email.value, password.value));
    }

    /** The callback of `login`. */
    method OnLoggedIn(outcome: Result<User>)
      modifies this
      ensures !isLoading && registerResult == old(registerResult)
      ensures loginResult == Some(AuthOutcome(outcome, "Login successful"))
    {
      isLoading := false;
      loginResult := Some(AuthOutcome(outcome, "Login successful"));
    }

    /** `register`: the new user (id 0) handed to the repository, or None when
        validation fails, in which case only the failure is posted. */
    method Register(firstName: Option<string>, lastName: Option<string>, email: Option<string>,
                    password: Option<string>, confirmPassword: Option<string>, role: string,
                    phone: Option<string>, validEmail: string -> bool) returns (request: Option<User>)
      modifies this
      ensures loginResult == old(loginResult)
      ensures RegisterError(firstName, lastName, email, password, confirmPassword, phone, validEmail).Some? ==>
        && request.None? && isLoading == old(isLoading)
        && registerResult == Some(AuthResult(false,
             RegisterError(firstName, lastName, email, password, confirmPassword, phone, validEmail).value, None))
      ensures RegisterError(firstName, lastName, email, password, confirmPassword, phone, validEmail).None? ==>
        && request == Some(User(0, firstName.value, lastName.value, email.value, password.value, role, phone.value))
        && isLoading && registerResult == old(registerResult)
    {
      var error := RegisterError(firstName, lastName, email, password, confirmPassword, phone, validEmail);
      if error.Some? {
        registerResult := Some(AuthResult(false, error.value, None));
        return None;
      }
      isLoading := true;
      request := Some(User(0, firstName.value, lastName.value, email.value, password.value, role, phone.value));
    }

    /** The callback of `register`: `entered` is the user the request carried. */
    method OnRegistered(entered: User, outcome: Result<int>)
      modifies this
      ensures !isLoading && loginResult == old(loginResult)
      ensures outcome.Ok? ==> registerResult == Some(AuthResult(true, "Registration successful",
        Some(RegisteredUser(entered, outcome.value))))
      ensures outcome.Err? ==> registerResult == Some(AuthResult(false, outcome.error, None))
    {
      isLoading := false;
      match outcome
      case Ok(id) => registerResult := Some(AuthOutcome(Ok(RegisteredUser(entered, id)), "Registration successful"));
      case Err(e) => registerResult := Some(AuthOutcome(Err(e), "Registration successful"));
    }
  }
}
