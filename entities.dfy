/** The domain models (`Event`, `User`) and the Room entities (`EventEntity`,
    `UserEntity`, `TicketEntity`) with their conversions. A Java `String` field
    that the code tests against null is an `Option<string>`. */
module Entities {
  import opened Strings

  const STATUS_ACTIVE: string := "Active"
  const STATUS_HOLD: string := "Hold"
  const STATUS_CANCELLED: string := "Cancelled"

  /** `status != null ? status : STATUS_ACTIVE`: a status that is never null. */
  function StatusOrActive(status: Option<string>): (s: string)
    ensures status.Some? ==> s == status.value
    ensures status.None? ==> s == STATUS_ACTIVE
  {
    status.GetOr(STATUS_ACTIVE)
  }

  // ---------------------------------------------------------------- events

  /** The fields of a `models.Event`. */
  datatype EventValue = EventValue(
    id: int, title: Option<string>, date: Option<string>, location: Option<string>,
    description: Option<string>, imageResId: int, status: Option<string>)

  /** The fields of an `EventEntity`, which are also the columns of the `events` table. */
  datatype EventRecord = EventRecord(
    id: int, title: Option<string>, date: Option<string>, location: Option<string>,
    description: Option<string>, imageResId: int, status: Option<string>, timestamp: int)

  /** `EventEntity.fromEvent`: the seven fields are copied (the status through
      `getStatus`, so never null) and the timestamp is 0. */
  function FromEventValue(e: EventValue): (r: EventRecord)
    ensures r.id == e.id && r.title == e.title && r.date == e.date && r.location == e.location
    ensures r.description == e.description && r.imageResId == e.imageResId
    ensures r.status == Some(StatusOrActive(e.status)) && r.timestamp == 0
  {
    EventRecord(e.id, e.title, e.date, e.location, e.description, e.imageResId,
                Some(StatusOrActive(e.status)), 0)
  }

  /** `EventEntity.toEvent`: the full `Event` constructor over the entity's
      fields; the timestamp has no counterpart in `Event`. */
  function ToEventValue(r: EventRecord): (e: EventValue)
    ensures e.id == r.id && e.title == r.title && e.date == r.date && e.location == r.location
    ensures e.description == r.description && e.imageResId == r.imageResId
    ensures e.status == Some(StatusOrActive(r.status))
  {
    EventValue(r.id, r.title, r.date, r.location, r.description, r.imageResId,
               Some(StatusOrActive(r.status)))
  }

  /** The row Room writes for an entity: every column through its getter, so
      the stored status is `getStatus()`. */
  function StoredEvent(r: EventRecord): (s: EventRecord)
    ensures s.status.Some? && s.status.value == StatusOrActive(r.status)
    ensures s.(status := r.status) == r
  {
    r.(status := Some(StatusOrActive(r.status)))
  }

  /** `toEvent(fromEvent(e))` agrees with `e` on every field, the status read
      through `getStatus`. */
  lemma EventRoundTrip(e: EventValue)
    ensures ToEventValue(FromEventValue(e)) == e.(status := Some(StatusOrActive(e.status)))
    ensures StatusOrActive(ToEventValue(FromEventValue(e)).status) == StatusOrActive(e.status)
  {
  }

  /** `toEvent` discards the timestamp. */
  lemma ToEventIgnoresTimestamp(r: EventRecord, t: int)
    ensures ToEventValue(r.(timestamp := t)) == ToEventValue(r)
  {
  }

  /** `models.Event`. */
  class Event {
    var id: int
    var title: Option<string>
    var date: Option<string>
    var location: Option<string>
    var description: Option<string>
    var imageResId: int
    var status: Option<string>

    function Value(): EventValue
      reads this
    {
      EventValue(id, title, date, location, description, imageResId, status)
    }

    /** The full constructor; a null status becomes "Active". */
    constructor (id: int, title: Option<string>, date: Option<string>, location: Option<string>,
                 description: Option<string>, imageResId: int, status: Option<string>)
      ensures Value() == EventValue(id, title, date, location, description, imageResId,
                                    Some(StatusOrActive(status)))
    {
      this.id := id;
      this.title := title;
      this.date := date;
      this.location := location;
      this.description := description;
      this.imageResId := imageResId;
      this.status := Some(StatusOrActive(status));
    }

    /** The five-argument constructor for a new event: id 0, status "Active". */
    constructor ForNew(title: Option<string>, date: Option<string>, location: Option<string>,
                       description: Option<string>, imageResId: int)
      ensures Value() == EventValue(0, title, date, location, description, imageResId,
                                    Some(STATUS_ACTIVE))
    {
      this.id := 0;
      this.title := title;
      this.date := date;
      this.location := location;
      this.description := description;
      this.imageResId := imageResId;
      this.status := Some(STATUS_ACTIVE);
    }

    /** The six-argument constructor: id 0, a null status becomes "Active". */
    constructor WithStatus(title: Option<string>, date: Option<string>, location: Option<string>,
                           description: Option<string>, imageResId: int, status: Option<string>)
      ensures Value() == EventValue(0, title, date, location, description, imageResId,
                                    Some(StatusOrActive(status)))
    {
      this.id := 0;
      this.title := title;
      this.date := date;
      this.location := location;
      this.description := description;
      this.imageResId := imageResId;
      this.status := Some(StatusOrActive(status));
    }

    /** `getStatus`: the stored status, or "Active" when it is null. */
    function GetStatus(): (s: string)
      reads this
      ensures status.Some? ==> s == status.value
      ensures status.None? ==> s == STATUS_ACTIVE
    {
      StatusOrActive(status)
    }

    method SetStatus(s: Option<string>)
      modifies this`status
      ensures Value() == old(Value()).(status := s)
    {
      status := s;
    }

    method SetId(i: int)
      modifies this`id
      ensures Value() == old(Value()).(id := i)
    {
      id := i;
    }
  }

  /** `EventEntity`. */
  class EventEntity {
    var id: int
    var title: Option<string>
    var date: Option<string>
    var location: Option<string>
    var description: Option<string>
    var imageResId: int
    var status: Option<string>
    var timestamp: int

    function Record(): EventRecord
      reads this
    {
      EventRecord(id, title, date, location, description, imageResId, status, timestamp)
    }

    /** The full constructor; a null status becomes "Active". */
    constructor (id: int, title: Option<string>, date: Option<string>, location: Option<string>,
                 description: Option<string>, imageResId: int, status: Option<string>, timestamp: int)
      ensures Record() == EventRecord(id, title, date, location, description, imageResId,
                                      Some(StatusOrActive(status)), timestamp)
    {
      this.id := id;
      this.title := title;
      this.date := date;
      this.location := location;
      this.description := description;
      this.imageResId := imageResId;
      this.status := Some(StatusOrActive(status));
      this.timestamp := timestamp;
    }

    /** `getStatus`: the stored status, or "Active" when it is null. */
    function GetStatus(): (s: string)
      reads this
      ensures status.Some? ==> s == status.value
      ensures status.None? ==> s == STATUS_ACTIVE
    {
      StatusOrActive(status)
    }

    method SetTimestamp(t: int)
      modifies this`timestamp
      ensures Record() == old(Record()).(timestamp := t)
    {
      timestamp := t;
    }

    static method FromEvent(e: Event) returns (r: EventEntity)
      ensures fresh(r) && r.Record() == FromEventValue(e.Value())
    {
      r := new EventEntity(e.id, e.title, e.date, e.location, e.description, e.imageResId,
                           Some(e.GetStatus()), 0);
    }

    method ToEvent() returns (e: Event)
      ensures fresh(e) && e.Value() == ToEventValue(Record())
    {
      e := new Event(id, title, date, location, description, imageResId, status);
    }
  }

  // ---------------------------------------------------------------- users

  /** `models.User`, which has no setters; also the columns of the `users` table. */
  datatype User = User(
    id: int, firstName: string, lastName: string, email: string, password: string,
    role: string, phone: string)

  /** `UserEntity`. */
  class UserEntity {
    var id: int
    var firstName: string
    var lastName: string
    var email: string
    var password: string
    var role: string
    var phone: string

    function Record(): User
      reads this
    {
      User(id, firstName, lastName, email, password, role, phone)
    }

    /** The full constructor stores all seven fields verbatim. */
    constructor (id: int, firstName: string, lastName: string, email: string, password: string,
                 role: string, phone: string)
      ensures Record() == User(id, firstName, lastName, email, password, role, phone)
    {
      this.id := id;
      this.firstName := firstName;
      this.lastName := lastName;
      this.email := email;
      this.password := password;
      this.role := role;
      this.phone := phone;
    }

    method SetPassword(p: string)
      modifies this`password
      ensures Record() == old(Record()).(password := p)
    {
      password := p;
    }

    /** `fromUser`, and `toUser` gives the same seven fields back. */
    static method FromUser(u: User) returns (r: UserEntity)
      ensures fresh(r) && r.Record() == u && r.ToUser() == u
    {
      r := new UserEntity(u.id, u.firstName, u.lastName, u.email, u.password, u.role, u.phone);
    }

    /** `toUser`: a `User` with the entity's seven fields. */
    function ToUser(): (u: User)
      reads this
      ensures u.id == id && u.email == email && u.password == password && u.role == role
      ensures u.firstName == firstName && u.lastName == lastName && u.phone == phone
    {
      User(id, firstName, lastName, email, password, role, phone)
    }
  }

  // ---------------------------------------------------------------- tickets

  /** The fields of a `TicketEntity`: the columns of the `tickets` table. */
  datatype TicketRecord = TicketRecord(id: int, userId: int, eventId: int, uniqueCode: Option<string>)

  /** `TicketEntity`. */
  class TicketEntity {
    var id: int
    var userId: int
    var eventId: int
    var uniqueCode: Option<string>

    function Record(): TicketRecord
      reads this
    {
      TicketRecord(id, userId, eventId, uniqueCode)
    }

    /** The no-argument constructor: Java's defaults, 0 and null. */
    constructor Empty()
      ensures Record() == TicketRecord(0, 0, 0, None)
    {
      id, userId, eventId, uniqueCode := 0, 0, 0, None;
    }

    /** The full constructor stores its four arguments verbatim. */
    constructor (id: int, userId: int, eventId: int, uniqueCode: Option<string>)
      ensures Record() == TicketRecord(id, userId, eventId, uniqueCode)
    {
      this.id, this.userId, this.eventId, this.uniqueCode := id, userId, eventId, uniqueCode;
    }

    method SetId(i: int)
      modifies this`id
      ensures Record() == old(Record()).(id := i)
    {
      id := i;
    }

    method SetUserId(u: int)
      modifies this`userId
      ensures Record() == old(Record()).(userId := u)
    {
      userId := u;
    }

    method SetEventId(e: int)
      modifies this`eventId
      ensures Record() == old(Record()).(eventId := e)
    {
      eventId := e;
    }

    method SetUniqueCode(c: Option<string>)
      modifies this`uniqueCode
      ensures Record() == old(Record()).(uniqueCode := c)
    {
      uniqueCode := c;
    }
  }
}
