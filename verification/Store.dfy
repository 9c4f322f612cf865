/** The database, one method for each statement or transaction of internal/db that the model needs. */
module Store {
  import opened Entities
  import opened Schema

  datatype Row = Row(id: nat, booking: Booking)

  datatype EventRow = EventRow(key: EventKey, event: CalendarEvent)

  function UpsertAll(events: map<EventKey, CalendarEvent>, rows: seq<EventRow>): map<EventKey, CalendarEvent> {
    if rows == [] then events
    else UpsertAll(events, rows[..|rows| - 1])[rows[|rows| - 1].key := rows[|rows| - 1].event]
  }

  /** Rows i of the table for the given positions, as a SELECT returns them. */
  function RowsAt(rows: seq<Booking>, ids: seq<nat>): seq<Row>
    requires forall id :: id in ids ==> id < |rows|
  {
    seq(|ids|, i requires 0 <= i < |ids| => assert ids[i] in ids; Row(ids[i], rows[ids[i]]))
  }

  /** All calendar events of a user. */
  ghost function EventsOf(t: Tables, userId: int): set<CalendarEvent> {
    set k | k in t.events && k.calendarId in t.calendars && t.calendars[k.calendarId] == userId :: t.events[k]
  }

  /** The row belongs to a calendar of the user and meets the range. */
  predicate ListedEvent(t: Tables, k: EventKey, userId: int, from: int, to: int) {
    && k in t.events && k.calendarId in t.calendars && t.calendars[k.calendarId] == userId
    && t.events[k].startAt < to && t.events[k].endAt > from
  }

  /** All bookings of a user's event types. */
  ghost function BookingsOf(t: Tables, userId: int): set<Booking> {
    set b | b in t.bookings && b.eventTypeId in t.eventTypes && t.eventTypes[b.eventTypeId].userId == userId
  }

  /** A row that the sweep must take. */
  predicate IsDue(rows: seq<Booking>, id: nat, now: int) {
    id < |rows| && rows[id].status == Pending && rows[id].reservedUntil <= now
  }

  /** Exactly the due rows, each once, in the order of their ids and with the columns they have. */
  ghost predicate ScannedExactly(rows: seq<Booking>, now: int, expired: seq<Row>) {
    && (forall k :: 0 <= k < |expired| ==> IsDue(rows, expired[k].id, now) && expired[k].booking == rows[expired[k].id])
    && (forall j, k :: 0 <= j < k < |expired| ==> expired[j].id < expired[k].id)
    && (forall id: nat :: IsDue(rows, id, now) ==> exists k :: 0 <= k < |expired| && expired[k].id == id)
  }

  lemma ExpiredRowsAreExact(rows: seq<Booking>, now: int)
    ensures ScannedExactly(rows, now, RowsAt(rows, ExpiredIds(rows, now)))
  {
    var ids := ExpiredIds(rows, now);
    var expired := RowsAt(rows, ids);
    forall k | 0 <= k < |expired| ensures IsDue(rows, expired[k].id, now) && expired[k].booking == rows[expired[k].id] {
      assert ids[k] in ids;
    }
    forall id: nat | IsDue(rows, id, now) ensures exists k :: 0 <= k < |expired| && expired[k].id == id {
      assert Expired(rows[id], now);
      assert id in ids;
      var k :| 0 <= k < |ids| && ids[k] == id;
      assert expired[k].id == id;
    }
  }

  /** internal/db/bookings.go:120-134 */
  method ScanExpired(rows: seq<Booking>, now: int) returns (expired: seq<Row>)
    ensures expired == RowsAt(rows, ExpiredIds(rows, now))
    ensures ScannedExactly(rows, now, expired)
  {
    expired := [];
    for i := 0 to |rows|
      invariant |expired| == |ExpiredIds(rows[..i], now)|
      invariant forall k :: 0 <= k < |expired| ==>
                              var id := ExpiredIds(rows[..i], now)[k]; id < i && expired[k] == Row(id, rows[id])
    {
      assert rows[..i + 1][..i] == rows[..i];
      if rows[i].status == Pending && rows[i].reservedUntil <= now {
        expired := expired + [Row(i, rows[i])];
      }
    }
    assert rows[..|rows|] == rows;
    ExpiredRowsAreExact(rows, now);
  }

  /** internal/db/bookings.go:137-142 */
  method IdsOf(rows: seq<Row>) returns (ids: seq<nat>)
    ensures |ids| == |rows| && forall i :: 0 <= i < |rows| ==> ids[i] == rows[i].id
  {
    ids := [];
    for i := 0 to |rows|
      invariant |ids| == i && forall k :: 0 <= k < i ==> ids[k] == rows[k].id
    {
      ids := ids + [rows[i].id];
    }
  }

  class Database {
    var eventTypes: map<int, EventType>
    var calendars: map<int, int>
    var events: map<EventKey, CalendarEvent>
    var rules: seq<Rule>
    var bookings: seq<Booking>

    function View(): Tables
      reads this
    {
      Tables(eventTypes, calendars, events, rules, bookings)
    }

    constructor ()
      ensures View() == EMPTY_TABLES
    {
      eventTypes, calendars, events, rules, bookings := map[], map[], map[], [], [];
    }

    /** internal/db/bookings.go:30-81: two re-checks and an insert in one transaction. */
    method CreateBooking(b: Booking) returns (r: Result<nat, CreateError>)
      modifies this`bookings
      ensures r.Err? ==> View() == old(View()) && Inserted(old(View()), b) == Err(r.error)
      ensures r.Ok? ==> Inserted(old(View()), b) == Ok(View()) && r.value == |old(bookings)|
      ensures r == Err(ConflictsWithEvent) <==> EventConflict(old(View()), b)
      ensures r == Err(NoLongerAvailable) <==> !EventConflict(old(View()), b) && BookingConflict(old(View()), b)
      ensures r == Err(DuplicateToken) <==>
              !EventConflict(old(View()), b) && !BookingConflict(old(View()), b) && TokenTaken(old(View()), b.token)
      ensures r.Ok? ==> Appends(old(bookings), bookings, b) && FindByToken(bookings, b.token) == Some(r.value)
    {
      InsertedExactly(View(), b);
      if EventConflict(View(), b) {
        return Err(ConflictsWithEvent);
      }
      if BookingConflict(View(), b) {
        return Err(NoLongerAvailable);
      }
      if TokenTaken(View(), b.token) {
        return Err(DuplicateToken);
      }
      bookings := bookings + [b.(status := Pending)];
      return Ok(|bookings| - 1);
    }

    /** internal/db/bookings.go:83-95 */
    method GetBookingByToken(token: string) returns (r: Option<Row>)
      ensures r == match FindByToken(bookings, token) case None => None case Some(id) => Some(Row(id, bookings[id]))
    {
      var found := FindByToken(bookings, token);
      if found.None? {
        return None;
      }
      return Some(Row(found.value, bookings[found.value]));
    }

    /** internal/db/bookings.go:97-112 */
    method ListPendingBookingsInRange(userId: int, from: int, to: int) returns (out: seq<Booking>)
      ensures (set b | b in out) == BookingsBetween(BookingsOf(View(), userId), from, to)
      ensures forall b :: b in out <==>
                          && b in bookings && b.eventTypeId in eventTypes
                          && eventTypes[b.eventTypeId].userId == userId
                          && b.status in {Pending, Confirmed} && b.startAt < to && b.endAt > from
    {
      out := [];
      for i := 0 to |bookings|
        invariant forall b :: b in out <==>
                              b in bookings[..i] && b in BookingsBetween(BookingsOf(View(), userId), from, to)
      {
        var b := bookings[i];
        assert b in bookings && forall x :: x in bookings[..i + 1] <==> x in bookings[..i] || x == b;
        if b.eventTypeId in eventTypes && eventTypes[b.eventTypeId].userId == userId
           && (b.status == Pending || b.status == Confirmed) && b.startAt < to && b.endAt > from {
          out := out + [b];
        }
      }
      assert bookings[..|bookings|] == bookings;
    }

    /** internal/db/bookings.go:114-117 */
    method UpdateBookingStatus(id: nat, status: Status)
      modifies this`bookings
      ensures bookings == StatusSet(old(bookings), id, status)
    {
      if id < |bookings| {
        bookings := bookings[id := bookings[id].(status := status)];
      }
    }

    /** internal/db/bookings.go:119-153: read the expired rows, collect their ids, cancel by id. */
    method CancelExpiredBookings(now: int) returns (expired: seq<Row>)
      modifies this`bookings
      ensures expired == RowsAt(old(bookings), ExpiredIds(old(bookings), now))
      ensures bookings == AllCancelled(old(bookings), ExpiredIds(old(bookings), now))
      ensures ScannedExactly(old(bookings), now, expired)
      ensures |bookings| == |old(bookings)|
      ensures forall id: nat :: id < |bookings| ==>
                                  bookings[id] == if IsDue(old(bookings), id, now)
                                  then old(bookings)[id].(status := Cancelled)
                                  else old(bookings)[id]
    {
      expired := ScanExpired(bookings, now);
      if |expired| > 0 {
        var args := IdsOf(expired);
        assert args == ExpiredIds(bookings, now);
        bookings := AllCancelled(bookings, args);
      } else {
        assert AllCancelled(bookings, []) == bookings;
      }
    }

    /** internal/db/calendars.go:112-123 */
    method UpsertCalendarEvent(key: EventKey, event: CalendarEvent)
      modifies this`events
      ensures events == old(events)[key := event]
      ensures View() == Administered(old(View()), UpsertEvent(key, event))
    {
      events := events[key := event];
    }

    /** internal/db/calendars.go:125-145: the upserts of one transaction, in order. */
    method BulkUpsertCalendarEvents(rows: seq<EventRow>)
      modifies this`events
      ensures events == UpsertAll(old(events), rows)
    {
      for i := 0 to |rows|
        invariant events == UpsertAll(old(events), rows[..i])
      {
        assert rows[..i + 1][..i] == rows[..i];
        events := events[rows[i].key := rows[i].event];
      }
      assert rows[..|rows|] == rows;
    }

    /** internal/db/calendars.go:147-170 */
    method ListCalendarEventsForUser(userId: int, from: int, to: int) returns (out: seq<CalendarEvent>)
      ensures (set e | e in out) == EventsBetween(EventsOf(View(), userId), from, to)
      ensures forall e :: e in out <==>
                          && e.startAt < to && e.endAt > from
                          && exists k :: k in events && events[k] == e && k.calendarId in calendars
                                         && calendars[k.calendarId] == userId
    {
      out := [];
      var keys := events.Keys;
      while keys != {}
        invariant keys <= events.Keys
        invariant forall e :: e in out ==> e in EventsBetween(EventsOf(View(), userId), from, to)
        invariant forall k :: k in events && k !in keys && ListedEvent(View(), k, userId, from, to) ==> events[k] in out
        decreases |keys|
      {
        var k :| k in keys;
        keys := keys - {k};
        if ListedEvent(View(), k, userId, from, to) {
          out := out + [events[k]];
        }
      }
      forall e ensures e in out <==> e in EventsBetween(EventsOf(View(), userId), from, to) {
      }
    }

    /** internal/db/calendars.go:207-212 */
    method PurgeOldCalendarEvents(calendarId: int, before: int)
      modifies this`events
      ensures events == Purged(old(events), calendarId, before)
      ensures View() == Administered(old(View()), PurgeEvents(calendarId, before))
    {
      events := map k | k in events && !(k.calendarId == calendarId && events[k].endAt < before) :: events[k];
    }

    /** internal/db/availability.go:35-60: delete the user's rules, insert the new ones, all in one transaction. */
    method ReplaceAvailabilityRules(userId: int, newRules: seq<Rule>)
      modifies this`rules
      ensures rules == RulesOfOthers(old(rules), userId) + RulesFor(userId, newRules)
      ensures View() == Administered(old(View()), ReplaceRules(userId, newRules))
    {
      rules := RulesOfOthers(rules, userId);
      var kept := rules;
      for i := 0 to |newRules|
        invariant rules == kept + RulesFor(userId, newRules)[..i]
      {
        rules := rules + [newRules[i].(userId := userId)];
      }
    }
  }
}
