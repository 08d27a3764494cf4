/** The logic inside the screens: the ticket search of `MyTicketsActivity`,
    the relative times of `NotificationsActivity`, the purchase button and
    gallery split of `EventDetailsActivity`, the form checks and gallery join
    of `CreateEventActivity`, and the error texts of `AuthManager`. Clocks,
    random draws and `Double.parseDouble` are parameters. */
module Screens {
  import opened Strings
  import opened Tables
  import opened Entities
  import opened TicketCodes
  import Sqlite
  import Session
  import LQ = LegacyQueries

  // ---------------------------------------------------------------- MyTicketsActivity

  /** A ticket matches when its title, location or date, lower-cased,
      contains the query. */
  predicate TicketMatches(t: LQ.Ticket, query: string) {
    || (t.eventTitle.Some? && Contains(Lower(t.eventTitle.value), query))
    || (t.eventLocation.Some? && Contains(Lower(t.eventLocation.value), query))
    || (t.eventDate.Some? && Contains(Lower(t.eventDate.value), query))
  }

  function Matcher(query: string): LQ.Ticket -> bool {
    (t: LQ.Ticket) => TicketMatches(t, query)
  }

  /** What `filter` shows: everything for a null or blank query, otherwise
      the matching tickets, in list order, for the lower-cased trimmed query. */
  function SearchResults(original: seq<LQ.Ticket>, query: Option<string>): (r: seq<LQ.Ticket>)
    ensures |r| <= |original|
    ensures IsBlank(query) ==> r == original
    ensures !IsBlank(query) ==> forall k :: 0 <= k < |r| ==> r[k] in original && TicketMatches(r[k], Trim(Lower(query.value)))
    ensures !IsBlank(query) ==> forall k :: 0 <= k < |original| && TicketMatches(original[k], Trim(Lower(query.value))) ==>
      original[k] in r
  {
    if IsBlank(query) then original else Filter(original, Matcher(Trim(Lower(query.value))))
  }

  /** The results are a subsequence of the list, holding exactly its
      matching tickets, or the whole list for a blank query. */
  lemma SearchResultsSpec(original: seq<LQ.Ticket>, query: Option<string>)
    ensures IsSubsequence(SearchResults(original, query), original)
    ensures IsBlank(query) ==> SearchResults(original, query) == original
    ensures !IsBlank(query) ==> forall t :: t in SearchResults(original, query) <==>
      t in original && TicketMatches(t, Trim(Lower(query.value)))
  {
    if IsBlank(query) {
      SubsequenceOfItself(original);
    } else {
      FilterSubsequence(original, Matcher(Trim(Lower(query.value))));
    }
  }

  lemma {:induction false} SubsequenceOfItself<T>(s: seq<T>)
    ensures IsSubsequence(s, s)
    decreases |s|
  {
    if s != [] {
      SubsequenceOfItself(s[1..]);
    }
  }

  /** `MyTicketsActivity.TicketAdapter`: the list it was given, never
      changed, and the list on screen. */
  class TicketAdapter {
    const originalList: seq<LQ.Ticket>
    var filteredList: seq<LQ.Ticket>

    /** A null list becomes empty; the screen starts with a copy of it. */
    constructor (tickets: Option<seq<LQ.Ticket>>)
      ensures originalList == (if tickets.Some? then tickets.value else [])
      ensures filteredList == originalList
    {
      originalList := if tickets.Some? then tickets.value else [];
      filteredList := if tickets.Some? then tickets.value else [];
    }

    /** `filter`: the screen is cleared, then refilled from the original
        list, so the result depends only on the query. */
    method Search(query: Option<string>)
      modifies this
      ensures filteredList == SearchResults(originalList, query)
    {
      filteredList := [];
      if IsBlank(query) {
        filteredList := originalList;
      } else {
        filteredList := MatchingTickets(originalList, Trim(Lower(query.value)));
      }
    }
  }

  /** The loop of `filter`: each ticket of the list that matches is added,
      in order. */
  method MatchingTickets(tickets: seq<LQ.Ticket>, query: string) returns (found: seq<LQ.Ticket>)
    ensures found == Filter(tickets, Matcher(query))
  {
    found := [];
    var i := 0;
    while i < |tickets|
      invariant 0 <= i <= |tickets|
      invariant found == Filter(tickets[..i], Matcher(query))
    {
      var t := tickets[i];
      FilterSnoc(tickets[..i], t, Matcher(query));
      assert tickets[..i + 1] == tickets[..i] + [t];
      assert Matcher(query)(t) == TicketMatches(t, query);
      if TicketMatches(t, query) {
        found := found + [t];
      }
      i := i + 1;
    }
    assert tickets[..i] == tickets;
  }

  // ---------------------------------------------------------------- NotificationsActivity

  /** Java's `/` on `long`: the quotient truncated toward zero. */
  function JavaDiv(a: int, b: int): (q: int)
    requires b > 0
    ensures a >= 0 ==> q == a / b
    ensures a < 0 ==> q <= 0
  {
    if a >= 0 then a / b else -((-a) / b)
  }

  /** How long ago a notification was posted. */
  datatype Ago = JustNow | MinutesAgo(minutes: int) | HoursAgo(hours: int) | DaysAgo(days: int) | OnDate(timestamp: int)

  /** `getRelativeTime`, with the clock reading as `now`: whole seconds,
      minutes, hours and days by successive division, checked in that order. */
  function RelativeTime(timestamp: int, now: int): (ago: Ago)
    ensures ago.MinutesAgo? ==> 1 <= ago.minutes < 60
    ensures ago.HoursAgo? ==> 1 <= ago.hours < 24
    ensures ago.DaysAgo? ==> 1 <= ago.days < 7
    ensures ago.OnDate? ==> ago.timestamp == timestamp && now - timestamp >= 604_800_000
  {
    var seconds := JavaDiv(now - timestamp, 1000);
    var minutes := JavaDiv(seconds, 60);
    var hours := JavaDiv(minutes, 60);
    var days := JavaDiv(hours, 24);
    if seconds < 60 then JustNow
    else if minutes < 60 then MinutesAgo(minutes)
    else if hours < 24 then HoursAgo(hours)
    else if days < 7 then DaysAgo(days)
    else OnDate(timestamp)
  }

  /** The buckets in milliseconds: under a minute (a timestamp in the future
      included) is "just now", then whole minutes, hours and days, and a week
      or more falls through to the date. */
  lemma RelativeTimeBuckets(timestamp: int, now: int)
    ensures var diff := now - timestamp;
      && (RelativeTime(timestamp, now) == JustNow <==> diff < 60_000)
      && (60_000 <= diff < 3_600_000 ==> RelativeTime(timestamp, now) == MinutesAgo(diff / 60_000))
      && (3_600_000 <= diff < 86_400_000 ==> RelativeTime(timestamp, now) == HoursAgo(diff / 3_600_000))
      && (86_400_000 <= diff < 604_800_000 ==> RelativeTime(timestamp, now) == DaysAgo(diff / 86_400_000))
      && (diff >= 604_800_000 ==> RelativeTime(timestamp, now) == OnDate(timestamp))
  {
    var diff := now - timestamp;
    if diff >= 0 {
      var seconds := diff / 1000;
      MinuteDivision(diff);
      assert seconds / 60 / 60 == diff / 3_600_000 by { HourDivision(diff); }
      assert seconds / 60 / 60 / 24 == diff / 86_400_000 by { DayDivision(diff); }
    }
  }

  /** Whole minutes from milliseconds, through whole seconds. */
  lemma MinuteDivision(ms: int)
    requires ms >= 0
    ensures ms / 1000 / 60 == ms / 60_000
  {
    var s := ms / 1000;
    var m := s / 60;
    assert 60_000 * m <= ms < 60_000 * m + 60_000;
  }

  /** Whole hours from milliseconds, through whole seconds and minutes. */
  lemma HourDivision(ms: int)
    requires ms >= 0
    ensures ms / 1000 / 60 / 60 == ms / 3_600_000
  {
    MinuteDivision(ms);
    var m := ms / 60_000;
    var h := m / 60;
    assert 3_600_000 * h <= ms < 3_600_000 * h + 3_600_000;
  }

  /** Whole days from milliseconds, through whole seconds, minutes and hours. */
  lemma DayDivision(ms: int)
    requires ms >= 0
    ensures ms / 1000 / 60 / 60 / 24 == ms / 86_400_000
  {
    HourDivision(ms);
    var h := ms / 3_600_000;
    var d := h / 24;
    assert 86_400_000 * d <= ms < 86_400_000 * d + 86_400_000;
  }

  /** The text shown for a bucket; `formatDate` is `MMM dd, yyyy` in the
      device's locale. */
  function AgoText(ago: Ago, formatDate: int -> string): (s: string)
    ensures ago.MinutesAgo? ==> s == IntToDecimal(ago.minutes) + (if ago.minutes == 1 then " minute ago" else " minutes ago")
    ensures ago.HoursAgo? ==> s == IntToDecimal(ago.hours) + (if ago.hours == 1 then " hour ago" else " hours ago")
    ensures ago.DaysAgo? ==> s == IntToDecimal(ago.days) + (if ago.days == 1 then " day ago" else " days ago")
  {
    match ago
    case JustNow => "Just now"
    case MinutesAgo(n) => IntToDecimal(n) + (if n == 1 then " minute ago" else " minutes ago")
    case HoursAgo(n) => IntToDecimal(n) + (if n == 1 then " hour ago" else " hours ago")
    case DaysAgo(n) => IntToDecimal(n) + (if n == 1 then " day ago" else " days ago")
    case OnDate(t) => formatDate(t)
  }

  // ---------------------------------------------------------------- EventDetailsActivity

  /** Why the purchase button refuses, in the order it checks. */
  function PurchaseRefusal(session: Session.SessionView, event: Option<EventValue>): (m: Option<string>)
    ensures m.None? <==>
      && session.loggedIn
      && !EqualsIgnoreCase("Admin", session.role) && !EqualsIgnoreCase("Organizer", session.role)
      && event.Some?
      && StatusOrActive(event.value.status) != STATUS_HOLD
      && StatusOrActive(event.value.status) != STATUS_CANCELLED
    ensures !session.loggedIn ==> m == Some("Please Login First")
    ensures session.loggedIn && (EqualsIgnoreCase("Admin", session.role) || EqualsIgnoreCase("Organizer", session.role)) ==>
      m == Some("Organizers/Admins cannot purchase tickets")
    ensures session.loggedIn && !EqualsIgnoreCase("Admin", session.role) && !EqualsIgnoreCase("Organizer", session.role) ==>
      && (event.None? ==> m == Some("Event details not loaded."))
      && (event.Some? && StatusOrActive(event.value.status) == STATUS_HOLD ==> m == Some("Ticket sales temporarily on hold"))
      && (event.Some? && StatusOrActive(event.value.status) == STATUS_CANCELLED ==> m == Some("Event has been cancelled"))
  {
    if !session.loggedIn then Some("Please Login First")
    else if EqualsIgnoreCase("Admin", session.role) || EqualsIgnoreCase("Organizer", session.role) then
      Some("Organizers/Admins cannot purchase tickets")
    else if event.None? then Some("Event details not loaded.")
    else if StatusOrActive(event.value.status) == STATUS_HOLD then Some("Ticket sales temporarily on hold")
    else if StatusOrActive(event.value.status) == STATUS_CANCELLED then Some("Event has been cancelled")
    else None
  }

  /** The code the button generates: "TICKET-", the clock, "-", a draw below 1000. */
  function LegacyTicketCode(millis: int, draw: nat): (code: string)
    ensures |code| > 7 && code[..7] == "TICKET-"
    ensures !IsValidFormat(Some(code))
  {
    var s := "TICKET-" + IntToDecimal(millis) + "-" + IntToDecimal(draw);
    assert s[..7] == "TICKET-";
    assert s[0] == 'T';
    s
  }

  /** Such a code never has the documented format, which starts with "EVT-". */
  lemma LegacyCodeInvalid(millis: int, draw: nat)
    ensures !IsValidFormat(Some(LegacyTicketCode(millis, draw)))
  {
    var s := LegacyTicketCode(millis, draw);
    assert s[0] == 'T';
  }

  /** What a tap on the purchase button ends in. */
  datatype PurchaseTap = Refused(message: string) | Confirmed(code: string) | PurchaseFailed

  /** The purchase button of `EventDetailsActivity`: the guards, then a
      ticket registered to the session's user id through the legacy helper.
      `millis` and `timestamp` are the two clock readings, `draw` the random
      number in [0, 1000). */
  method PurchaseButton(db: Sqlite.SqliteFile, session: Session.Prefs, event: Option<EventValue>,
                        millis: int, draw: nat, timestamp: int) returns (r: PurchaseTap)
    requires draw < 1000
    modifies db
    ensures PurchaseRefusal(Session.View(session), event).Some? ==>
      r == Refused(PurchaseRefusal(Session.View(session), event).value) && db.tables == old(db.tables)
    ensures PurchaseRefusal(Session.View(session), event).None? ==>
      var values := LQ.TicketValues(LQ.LegacyId(Session.UserId(session)), event.value.id,
                                    Some(LegacyTicketCode(millis, draw)), timestamp);
      var outcome := Sqlite.Exec(old(db.tables), Sqlite.Insert("tickets", values));
      && (outcome.Ok? ==> r == Confirmed(LegacyTicketCode(millis, draw)) && db.tables == outcome.value)
      && (outcome.Err? ==> r == PurchaseFailed && db.tables == old(db.tables))
  {
    var refusal := PurchaseRefusal(Session.View(session), event);
    if refusal.Some? {
      return Refused(refusal.value);
    }
    var code := LegacyTicketCode(millis, draw);
    var ok := LQ.RegisterTicket(db, LQ.LegacyId(Session.UserId(session)), event.value.id, Some(code), timestamp);
    if ok {
      r := Confirmed(code);
    } else {
      r := PurchaseFailed;
    }
  }

  /** A path as the gallery loads it: not empty, already trimmed. */
  predicate CleanPath(p: string) {
    p != [] && IsTrimmed(p)
  }

  /** The gallery paths of an event: the stored string split on ',', each
      part trimmed, blank parts skipped. */
  function GalleryPaths(stored: Option<string>): (paths: seq<string>)
    ensures forall k :: 0 <= k < |paths| ==> CleanPath(paths[k])
  {
    if stored.None? || stored.value == [] then []
    else KeepPaths(JavaSplit(stored.value, ','))
  }

  /** Every part trimmed. */
  function TrimAll(parts: seq<string>): (r: seq<string>)
    ensures |r| == |parts|
    ensures forall k :: 0 <= k < |parts| ==> r[k] == Trim(parts[k])
  {
    seq(|parts|, k requires 0 <= k < |parts| => Trim(parts[k]))
  }

  function NonEmpty(p: string): bool { p != [] }

  /** The trimmed, non-blank parts, in order. */
  function KeepPaths(parts: seq<string>): (paths: seq<string>)
    ensures |paths| <= |parts|
    ensures forall k :: 0 <= k < |paths| ==> CleanPath(paths[k])
  {
    var trimmed := TrimAll(parts);
    AllTrimmed(parts);
    Filter(trimmed, NonEmpty)
  }

  lemma AllTrimmed(parts: seq<string>)
    ensures forall p :: p in TrimAll(parts) ==> IsTrimmed(p)
  {
    forall p | p in TrimAll(parts) ensures IsTrimmed(p) {
      var k :| 0 <= k < |parts| && TrimAll(parts)[k] == p;
      TrimTrimmed(parts[k]);
    }
  }

  /** No stored path holds the separator. */
  lemma GalleryPathsNoComma(stored: Option<string>)
    ensures forall k :: 0 <= k < |GalleryPaths(stored)| ==> ',' !in GalleryPaths(stored)[k]
  {
    if stored.Some? && stored.value != [] {
      var s := stored.value;
      var parts := JavaSplit(s, ',');
      if ',' in s {
        var all := SplitAll(s, ',');
        assert parts == all[..|parts|];
        forall k | 0 <= k < |parts| ensures ',' !in parts[k] {
          assert parts[k] == all[k];
        }
      } else {
        assert parts == [s];
      }
      forall k | 0 <= k < |parts| ensures ',' !in TrimAll(parts)[k] {
        TrimKeepsOut(parts[k], ',');
      }
      assert GalleryPaths(stored) == Filter(TrimAll(parts), NonEmpty);
    }
  }

  // ---------------------------------------------------------------- CreateEventActivity

  /** `Integer.parseInt`: an optional sign and at least one decimal digit,
      within the 32-bit range. */
  function ParseInt(s: string): (r: Option<int>)
    ensures r.Some? ==> -0x8000_0000 <= r.value < 0x8000_0000
  {
    var negative := s != [] && s[0] == '-';
    var digits := if s != [] && (s[0] == '-' || s[0] == '+') then s[1..] else s;
    if digits == [] || !AllDigits(digits) then None
    else
      var v := if negative then -(DecimalValue(digits) as int) else DecimalValue(digits) as int;
      if -0x8000_0000 <= v < 0x8000_0000 then Some(v) else None
  }

  /** The decimal text of a number in range parses back to it. */
  lemma ParseIntDecimal(n: nat)
    requires n < 0x8000_0000
    ensures ParseInt(NatToDecimal(n)) == Some(n)
  {
    DecimalRoundTrip(n);
  }

  /** The checks of `saveEvent` on the trimmed form fields, in order;
      `parseDouble` is `Double.parseDouble`. */
  function SaveEventError(title: string, date: string, location: string, price: string, quantity: string,
                          parseDouble: string -> Option<real>): (e: Option<string>)
    ensures e.None? <==>
      && title != [] && date != [] && location != [] && price != [] && quantity != []
      && parseDouble(price).Some? && parseDouble(price).value >= 0.0
      && ParseInt(quantity).Some? && ParseInt(quantity).value > 0
    ensures title == [] || date == [] || location == [] ==>
      e == Some("Please fill in all required fields (Title, Date, Location)")
    ensures title != [] && date != [] && location != [] ==>
      && (price == [] ==> e == Some("Please enter ticket price"))
      && (price != [] && quantity == [] ==> e == Some("Please enter ticket quantity"))
      && (price != [] && quantity != [] ==>
          && (parseDouble(price).None? ==> e == Some("Invalid ticket price format"))
          && (parseDouble(price).Some? && parseDouble(price).value < 0.0 ==> e == Some("Ticket price must be positive"))
          && (parseDouble(price).Some? && parseDouble(price).value >= 0.0 ==>
              && (ParseInt(quantity).None? ==> e == Some("Invalid ticket quantity format"))
              && (ParseInt(quantity).Some? && ParseInt(quantity).value <= 0 ==>
                  e == Some("Ticket quantity must be greater than 0"))))
  {
    if title == [] || date == [] || location == [] then Some("Please fill in all required fields (Title, Date, Location)")
    else if price == [] then Some("Please enter ticket price")
    else if quantity == [] then Some("Please enter ticket quantity")
    else if parseDouble(price).None? then Some("Invalid ticket price format")
    else if parseDouble(price).value < 0.0 then Some("Ticket price must be positive")
    else if ParseInt(quantity).None? then Some("Invalid ticket quantity format")
    else if ParseInt(quantity).value <= 0 then Some("Ticket quantity must be greater than 0")
    else None
  }

  /** The saved paths, nulls (failed saves) dropped, in selection order. */
  function SavedPaths(saved: seq<Option<string>>): (paths: seq<string>)
    ensures |paths| <= |saved|
    ensures forall p :: p in paths <==> Some(p) in saved
    decreases |saved|
  {
    if saved == [] then []
    else
      var rest := SavedPaths(saved[1..]);
      assert forall o :: o in saved <==> o == saved[0] || o in saved[1..];
      if saved[0].Some? then [saved[0].value] + rest else rest
  }

  /** The gallery string `saveEvent` stores. */
  function GalleryString(saved: seq<Option<string>>): (g: string)
    ensures SavedPaths(saved) == [] ==> g == ""
    ensures |SavedPaths(saved)| == 1 ==> g == SavedPaths(saved)[0]
    ensures (forall k :: 0 <= k < |SavedPaths(saved)| ==> CleanPath(SavedPaths(saved)[k]) && ',' !in SavedPaths(saved)[k]) ==>
      GalleryPaths(Some(g)) == SavedPaths(saved)
  {
    var paths := SavedPaths(saved);
    if forall k :: 0 <= k < |paths| ==> CleanPath(paths[k]) && ',' !in paths[k] then
      GalleryRoundTrip(paths);
      Join(paths, ',')
    else Join(paths, ',')
  }

  /** Paths that are not blank, already trimmed and free of ',' come back
      from the split `EventDetailsActivity` applies. */
  lemma GalleryRoundTrip(paths: seq<string>)
    requires forall k :: 0 <= k < |paths| ==> CleanPath(paths[k]) && ',' !in paths[k]
    ensures GalleryPaths(Some(Join(paths, ','))) == paths
  {
    if paths != [] {
      JoinNotEmpty(paths);
      JavaSplitJoin(paths);
      KeepPathsKeeps(paths);
    }
  }

  /** Splitting on ',' undoes joining non-empty pieces free of ','. */
  lemma JavaSplitJoin(paths: seq<string>)
    requires paths != []
    requires forall k :: 0 <= k < |paths| ==> paths[k] != [] && ',' !in paths[k]
    ensures JavaSplit(Join(paths, ','), ',') == paths
  {
    var s := Join(paths, ',');
    if |paths| == 1 {
      assert s == paths[0];
    } else {
      JoinContainsSeparator(paths, ',');
      SplitAllJoin(paths, ',');
      assert paths[|paths| - 1] != [];
    }
  }

  lemma JoinNotEmpty(paths: seq<string>)
    requires paths != [] && paths[0] != []
    ensures Join(paths, ',') != []
  {
    if |paths| > 1 {
      assert Join(paths, ',')[0] == paths[0][0];
    }
  }

  lemma KeepPathsKeeps(paths: seq<string>)
    requires forall k :: 0 <= k < |paths| ==> CleanPath(paths[k])
    ensures KeepPaths(paths) == paths
  {
    forall k | 0 <= k < |paths| ensures TrimAll(paths)[k] == paths[k] {
      TrimmedFixed(paths[k]);
    }
    assert TrimAll(paths) == paths;
    FilterKeepsAll(paths, NonEmpty);
  }

  /** `saveEvent`'s gallery string reads back as the saved paths. */
  lemma SavedGalleryRoundTrip(saved: seq<Option<string>>)
    requires forall p :: Some(p) in saved ==> CleanPath(p) && ',' !in p
    ensures GalleryPaths(Some(GalleryString(saved))) == SavedPaths(saved)
  {
    var paths := SavedPaths(saved);
    assert forall k :: 0 <= k < |paths| ==> Some(paths[k]) in saved;
    GalleryRoundTrip(paths);
  }

  /** What the gallery picker returns. */
  datatype Pick<Uri> = Several(items: seq<Uri>) | One(item: Uri) | Cancelled

  /** The gallery picker's callback: from a multiple selection at most the
      first ten images are added, a single one is added, and a cancelled pick
      adds nothing. */
  method AddPicked<Uri>(selected: seq<Uri>, pick: Pick<Uri>) returns (r: seq<Uri>)
    ensures pick.Several? ==> r == selected + pick.items[..if |pick.items| < 10 then |pick.items| else 10]
    ensures pick.One? ==> r == selected + [pick.item]
    ensures pick.Cancelled? ==> r == selected
    ensures |r| <= |selected| + 10
  {
    r := selected;
    match pick
    case Several(items) =>
      var i := 0;
      while i < |items| && i < 10
        invariant 0 <= i <= |items| && i <= 10
        invariant r == selected + items[..i]
      {
        r := r + [items[i]];
        assert items[..i + 1] == items[..i] + [items[i]];
        i := i + 1;
      }
    case One(item) => r := r + [item];
    case Cancelled =>
  }

  // ---------------------------------------------------------------- AuthManager

  /** The message fragments `getErrorMessage` looks for and the texts it
      shows for them, in the order it checks them. */
  const ERROR_TEXTS: seq<(string, string)> := [
    ("email address is already in use", "Email already in use"),
    ("password is invalid", "Invalid password"),
    ("no user record", "No account found with this email"),
    ("badly formatted", "Invalid email format"),
    ("weak password", "Password is too weak"),
    ("network error", "Network error. Please check your connection"),
    ("too many requests", "Too many attempts. Please try again later")]

  /** The text for the first fragment the message contains. */
  function FirstKnown(message: string, texts: seq<(string, string)>): (r: Option<string>)
    ensures r.None? <==> forall k :: 0 <= k < |texts| ==> !Contains(message, texts[k].0)
    ensures r.Some? ==> exists k :: (0 <= k < |texts| && Contains(message, texts[k].0) && r.value == texts[k].1
      && forall j :: 0 <= j < k ==> !Contains(message, texts[j].0))
    decreases |texts|
  {
    if texts == [] then None
    else if Contains(message, texts[0].0) then Some(texts[0].1)
    else
      var rest := FirstKnown(message, texts[1..]);
      assert forall k :: 1 <= k < |texts| ==> texts[k] == texts[1..][k - 1];
      rest
  }

  /** `getErrorMessage`; `message` is the exception's message, None when the
      exception or its message is null. */
  function ErrorMessage(message: Option<string>): (r: string)
    ensures message.None? ==> r == "An unknown error occurred"
    ensures message.Some? && FirstKnown(message.value, ERROR_TEXTS).None? ==> r == "Authentication failed: " + message.value
  {
    if message.None? then "An unknown error occurred"
    else
      match FirstKnown(message.value, ERROR_TEXTS)
      case Some(text) => text
      case None => "Authentication failed: " + message.value
  }

  /** A message holding a known fragment, and none checked before it, shows
      that fragment's text. */
  lemma ErrorMessageKnown(message: string, k: nat)
    requires k < |ERROR_TEXTS| && Contains(message, ERROR_TEXTS[k].0)
    requires forall j :: 0 <= j < k ==> !Contains(message, ERROR_TEXTS[j].0)
    ensures ErrorMessage(Some(message)) == ERROR_TEXTS[k].1
  {
    var r := FirstKnown(message, ERROR_TEXTS);
    var i :| 0 <= i < |ERROR_TEXTS| && Contains(message, ERROR_TEXTS[i].0) && r.value == ERROR_TEXTS[i].1 &&
      forall j :: 0 <= j < i ==> !Contains(message, ERROR_TEXTS[j].0);
    assert i == k;
  }
}
