/**
  * The tables of internal/db as values, and what each statement makes of them.
  * Bookings are never deleted, so the row id that SQLite hands out is the row's position.
  */
module Schema {
  import opened Entities

  datatype EventKey = EventKey(calendarId: int, uid: string)

  datatype Tables = Tables(
    eventTypes: map<int, EventType>,
    calendars: map<int, int>, // calendar id to owning user
    events: map<EventKey, CalendarEvent>, // UNIQUE(calendar_id, uid)
    rules: seq<Rule>,
    bookings: seq<Booking>)

  const EMPTY_TABLES := Tables(map[], map[], map[], [], [])

  // ---------- CreateBooking (internal/db/bookings.go:30-81) ----------

  predicate SameHost(t: Tables, a: Booking, b: Booking) {
    && a.eventTypeId in t.eventTypes
    && b.eventTypeId in t.eventTypes
    && t.eventTypes[a.eventTypeId].userId == t.eventTypes[b.eventTypeId].userId
  }

  predicate HostsEvent(t: Tables, b: Booking, k: EventKey) {
    && k in t.events
    && k.calendarId in t.calendars
    && b.eventTypeId in t.eventTypes
    && t.calendars[k.calendarId] == t.eventTypes[b.eventTypeId].userId
  }

  predicate EventConflict(t: Tables, b: Booking) {
    exists k :: k in t.events && HostsEvent(t, b, k)
                && Overlaps(t.events[k].startAt, t.events[k].endAt, b.startAt, b.endAt)
  }

  predicate BookingConflict(t: Tables, b: Booking) {
    exists i :: 0 <= i < |t.bookings| && Live(t.bookings[i].status) && SameHost(t, t.bookings[i], b)
                && Overlaps(t.bookings[i].startAt, t.bookings[i].endAt, b.startAt, b.endAt)
  }

  predicate TokenTaken(t: Tables, token: string) {
    exists i :: 0 <= i < |t.bookings| && t.bookings[i].token == token
  }

  datatype CreateError = ConflictsWithEvent | NoLongerAvailable | DuplicateToken

  function Inserted(t: Tables, b: Booking): Result<Tables, CreateError> {
    if EventConflict(t, b) then Err(ConflictsWithEvent)
    else if BookingConflict(t, b) then Err(NoLongerAvailable)
    else if TokenTaken(t, b.token) then Err(DuplicateToken)
    else Ok(t.(bookings := t.bookings + [b.(status := Pending)]))
  }

  /** The new row is the request in every column but the status, and the rows before it stay. */
  predicate Appends(rows: seq<Booking>, rows': seq<Booking>, b: Booking) {
    && |rows'| == |rows| + 1 && rows'[..|rows|] == rows
    && var row := rows'[|rows|];
    && row.eventTypeId == b.eventTypeId && row.startAt == b.startAt && row.endAt == b.endAt
    && row.guest.name == b.guest.name && row.guest.email == b.guest.email && row.guest.note == b.guest.note
    && row.status == Pending && row.token == b.token && row.reservedUntil == b.reservedUntil
  }

  // ---------- The other booking statements ----------

  /** SELECT ... WHERE token = ? */
  function FindByToken(rows: seq<Booking>, token: string): (r: Option<nat>)
    ensures r.Some? ==> r.value < |rows| && rows[r.value].token == token
    ensures r.None? ==> forall i :: 0 <= i < |rows| ==> rows[i].token != token
  {
    if rows == [] then None
    else if rows[|rows| - 1].token == token then Some(|rows| - 1)
    else FindByToken(rows[..|rows| - 1], token)
  }

  /** A booking goes in exactly when nothing is in its way, it is then found by its token, and other tables stay. */
  lemma InsertedExactly(t: Tables, b: Booking)
    ensures var r := Inserted(t, b);
            && (r.Ok? <==> !EventConflict(t, b) && !BookingConflict(t, b) && !TokenTaken(t, b.token))
            && (r == Err(ConflictsWithEvent) <==> EventConflict(t, b))
            && (r == Err(NoLongerAvailable) <==> !EventConflict(t, b) && BookingConflict(t, b))
            && (r.Ok? ==> Appends(t.bookings, r.value.bookings, b) && r.value.(bookings := t.bookings) == t
                          && FindByToken(r.value.bookings, b.token) == Some(|t.bookings|))
  {
    var r := Inserted(t, b);
    if r.Ok? {
      assert r.value.bookings[..|t.bookings|] == t.bookings;
    }
  }

  /** What confirm and reject act on: the row of the token, if it is still PENDING. */
  function PendingRow(rows: seq<Booking>, token: string): (r: Option<nat>)
    ensures r.Some? ==> r.value < |rows| && rows[r.value].token == token && rows[r.value].status == Pending
  {
    match FindByToken(rows, token)
    case None => None
    case Some(id) => if rows[id].status == Pending then Some(id) else None
  }

  /** UPDATE bookings SET status = ? WHERE id = ? */
  function StatusSet(rows: seq<Booking>, id: nat, status: Status): (r: seq<Booking>)
    ensures |r| == |rows|
    ensures forall i :: 0 <= i < |rows| ==> r[i] == if i == id then rows[i].(status := status) else rows[i]
  {
    if id < |rows| then rows[id := rows[id].(status := status)] else rows
  }

  predicate Expired(b: Booking, now: int) {
    b.status == Pending && b.reservedUntil <= now
  }

  /** SELECT id ... WHERE status = 'PENDING' AND reserved_until <= CURRENT_TIMESTAMP */
  function ExpiredIds(rows: seq<Booking>, now: int): (ids: seq<nat>)
    ensures forall i: nat :: i in ids <==> i < |rows| && Expired(rows[i], now)
    ensures forall i, j :: 0 <= i < j < |ids| ==> ids[i] < ids[j]
  {
    if rows == [] then []
    else
      var n := |rows| - 1;
      var front := ExpiredIds(rows[..n], now);
      assert forall i :: 0 <= i < |front| ==> front[i] in front;
      front + if Expired(rows[n], now) then [n] else []
  }

  /** UPDATE bookings SET status = 'CANCELLED' WHERE id IN (...): no test of the status. */
  function AllCancelled(rows: seq<Booking>, ids: seq<nat>): seq<Booking> {
    seq(|rows|, i requires 0 <= i < |rows| => if i in ids then rows[i].(status := Cancelled) else rows[i])
  }

  // ---------- Range queries ----------

  /** The rows that ListCalendarEventsForUser keeps. */
  ghost function EventsBetween(events: set<CalendarEvent>, from: int, to: int): set<CalendarEvent> {
    set e | e in events && e.startAt < to && e.endAt > from
  }

  /** The rows that ListPendingBookingsInRange keeps. */
  ghost function BookingsBetween(bookings: set<Booking>, from: int, to: int): set<Booking> {
    set b | b in bookings && Live(b.status) && b.startAt < to && b.endAt > from
  }

  // ---------- Statements on the other tables ----------

  datatype Admin =
    | AddEventType(id: int, et: EventType)
    | EditEventType(id: int, userId: int, durationMinutes: int, bookingWindowDays: int)
    | ToggleEventType(id: int, userId: int)
    | AddCalendar(calendarId: int, owner: int)
    | DeleteCalendar(calendarId: int, owner: int)
    | UpsertEvent(key: EventKey, event: CalendarEvent)
    | PurgeEvents(calendarId: int, before: int)
    | ReplaceRules(userId: int, rules: seq<Rule>)

  function Owned(t: Tables, id: int, userId: int): bool {
    id in t.eventTypes && t.eventTypes[id].userId == userId
  }

  function Purged(events: map<EventKey, CalendarEvent>, calendarId: int, before: int): map<EventKey, CalendarEvent> {
    map k | k in events && !(k.calendarId == calendarId && events[k].endAt < before) :: events[k]
  }

  function RulesOf(rules: seq<Rule>, userId: int): seq<Rule> {
    if rules == [] then []
    else
      var last := rules[|rules| - 1];
      RulesOf(rules[..|rules| - 1], userId) + if last.userId == userId then [last] else []
  }

  function RulesOfOthers(rules: seq<Rule>, userId: int): seq<Rule> {
    if rules == [] then []
    else
      var last := rules[|rules| - 1];
      RulesOfOthers(rules[..|rules| - 1], userId) + if last.userId != userId then [last] else []
  }

  /** INSERT stores the user id of the call, whatever the rule says. */
  function RulesFor(userId: int, rules: seq<Rule>): seq<Rule> {
    seq(|rules|, i requires 0 <= i < |rules| => rules[i].(userId := userId))
  }

  function Administered(t: Tables, a: Admin): Tables {
    match a
    case AddEventType(id, et) =>
      if id in t.eventTypes then t else t.(eventTypes := t.eventTypes[id := et])
    case EditEventType(id, userId, d, w) =>
      if !Owned(t, id, userId) then t
      else t.(eventTypes := t.eventTypes[id := t.eventTypes[id].(durationMinutes := d, bookingWindowDays := w)])
    case ToggleEventType(id, userId) =>
      if !Owned(t, id, userId) then t
      else t.(eventTypes := t.eventTypes[id := t.eventTypes[id].(active := !t.eventTypes[id].active)])
    case AddCalendar(id, owner) =>
      if id in t.calendars then t else t.(calendars := t.calendars[id := owner])
    case DeleteCalendar(id, owner) =>
      if id in t.calendars && t.calendars[id] == owner then t.(calendars := t.calendars - {id}) else t
    case UpsertEvent(key, event) =>
      t.(events := t.events[key := event])
    case PurgeEvents(id, before) =>
      t.(events := Purged(t.events, id, before))
    case ReplaceRules(userId, rules) =>
      t.(rules := RulesOfOthers(t.rules, userId) + RulesFor(userId, rules))
  }

  // ---------- Invariants and relations between states ----------

  /** Every booking names an event type that exists. */
  predicate Known(t: Tables) {
    forall i :: 0 <= i < |t.bookings| ==> t.bookings[i].eventTypeId in t.eventTypes
  }

  predicate UniqueTokens(t: Tables) {
    forall i, j :: 0 <= i < j < |t.bookings| ==> t.bookings[i].token != t.bookings[j].token
  }

  /** Rows i and j double-book a host. */
  predicate Clash(t: Tables, i: nat, j: nat) {
    && i < |t.bookings| && j < |t.bookings| && i != j
    && Live(t.bookings[i].status) && Live(t.bookings[j].status)
    && SameHost(t, t.bookings[i], t.bookings[j])
    && Overlaps(t.bookings[i].startAt, t.bookings[i].endAt, t.bookings[j].startAt, t.bookings[j].endAt)
  }

  /** No host is double-booked, by any pair of event types. */
  ghost predicate NoDoubleBooking(t: Tables) {
    forall i: nat, j: nat :: !Clash(t, i, j)
  }

  /** Event types keep their owner. */
  ghost predicate HostsKept(t: Tables, t': Tables) {
    forall id :: id in t.eventTypes ==> id in t'.eventTypes && t'.eventTypes[id].userId == t.eventTypes[id].userId
  }

  /** Everything but the status is for ever, and no row becomes PENDING again. */
  ghost predicate RowsKept(t: Tables, t': Tables) {
    && |t.bookings| <= |t'.bookings|
    && forall i :: 0 <= i < |t.bookings| ==>
                     && t'.bookings[i].(status := t.bookings[i].status) == t.bookings[i]
                     && (t'.bookings[i].status == Pending ==> t.bookings[i].status == Pending)
  }

  /** Only the owner's edit changes an event type, and only its length and window; a second toggle undoes the first. */
  lemma EventTypeStatementsAreExact(t: Tables, id: int, userId: int, d: int, w: int, other: int)
    requires other in t.eventTypes
    ensures var edited := Administered(t, EditEventType(id, userId, d, w));
            && edited.(eventTypes := t.eventTypes) == t && edited.eventTypes.Keys == t.eventTypes.Keys
            && var et, et' := t.eventTypes[other], edited.eventTypes[other];
            && et'.userId == et.userId && et'.active == et.active
            && et'.durationMinutes == (if other == id && et.userId == userId then d else et.durationMinutes)
            && et'.bookingWindowDays == (if other == id && et.userId == userId then w else et.bookingWindowDays)
    ensures var toggled := Administered(t, ToggleEventType(id, userId));
            && toggled.(eventTypes := t.eventTypes) == t
            && (toggled.eventTypes[other].active != t.eventTypes[other].active <==>
                other == id && t.eventTypes[other].userId == userId)
            && Administered(toggled, ToggleEventType(id, userId)) == t
    ensures forall et :: Administered(t, AddEventType(other, et)) == t
  {
    var toggled := Administered(t, ToggleEventType(id, userId));
    assert Administered(toggled, ToggleEventType(id, userId)).eventTypes == t.eventTypes;
  }

  /** New ids are added with what they were given, and a calendar goes by its owner's wish only. */
  lemma AddedAndDeletedExactly(t: Tables, id: int, et: EventType, owner: int, k: int)
    ensures id !in t.eventTypes ==>
              Administered(t, AddEventType(id, et)) == t.(eventTypes := t.eventTypes[id := et])
    ensures var added := Administered(t, AddCalendar(id, owner));
            && added.(calendars := t.calendars) == t
            && (k in added.calendars <==> k in t.calendars || k == id)
            && (k in added.calendars ==> added.calendars[k] == if k in t.calendars then t.calendars[k] else owner)
    ensures var deleted := Administered(t, DeleteCalendar(id, owner));
            && deleted.(calendars := t.calendars) == t
            && (k in deleted.calendars <==> k in t.calendars && !(k == id && t.calendars[k] == owner))
            && (k in deleted.calendars ==> deleted.calendars[k] == t.calendars[k])
  {
  }

  lemma AdminKeepsBookings(t: Tables, a: Admin)
    requires Known(t)
    ensures var t' := Administered(t, a); t'.bookings == t.bookings && HostsKept(t, t') && Known(t')
  {
  }
}
