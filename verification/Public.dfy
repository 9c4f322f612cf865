/** The public booking pages of internal/handler/public.go: showing slots and submitting one. */
module Public {
  import opened Entities
  import opened Schema
  import opened Slots
  import opened SlotTheory
  import opened Store
  import opened Interleaving

  function SlotLength(et: EventType): int {
    Wrap64(et.durationMinutes * MINUTE)
  }

  function SlotQuery(et: EventType, date: int, zone: Zone, now: int): Query {
    Query(date, SlotLength(et), zone, et.bookingWindowDays, now)
  }

  /** The rows that both pages fetch before they calculate. */
  ghost function FetchedEvents(t: Tables, userId: int, q: Query): set<CalendarEvent> {
    EventsBetween(EventsOf(t, userId), q.now - HOUR, WindowEnd(q.now, q.bookingWindowDays))
  }

  ghost function FetchedBookings(t: Tables, userId: int, q: Query): set<Booking> {
    BookingsBetween(BookingsOf(t, userId), q.now - HOUR, WindowEnd(q.now, q.bookingWindowDays))
  }

  /** The pages offer s when they read the rules, the events and the bookings from these tables, one after the other. */
  ghost predicate OfferedFrom(rules: Tables, events: Tables, bookings: Tables, userId: int, q: Query, s: Slot) {
    && Free(s, FetchedEvents(events, userId, q), FetchedBookings(bookings, userId, q), q)
    && exists r :: r in RulesOf(rules.rules, userId) && RuleGives(r, s, q)
  }

  /** The same with nothing written between the reads. */
  ghost predicate Offered(t: Tables, userId: int, q: Query, s: Slot) {
    OfferedFrom(t, t, t, userId, q, s)
  }

  /** internal/handler/public.go:112-117 and 271-288 */
  method CalculateSlotsFor(db: Database, userId: int, q: Query) returns (out: seq<Slot>)
    requires Terminates(RulesOf(db.rules, userId), q)
    ensures Answers(out, RulesOf(db.rules, userId), FetchedEvents(db.View(), userId, q),
                    FetchedBookings(db.View(), userId, q), q)
    ensures forall s :: s in out <==> Offered(db.View(), userId, q, s)
  {
    var from := q.now - HOUR;
    var to := WindowEnd(q.now, q.bookingWindowDays);
    var events := db.ListCalendarEventsForUser(userId, from, to);
    var bookings := db.ListPendingBookingsInRange(userId, from, to);
    out := CalculateSlots(RulesOf(db.rules, userId), events, bookings, q);
    forall s ensures s in out <==> Offered(db.View(), userId, q, s) {
      OfferedExactly(out, RulesOf(db.rules, userId), FetchedEvents(db.View(), userId, q),
                     FetchedBookings(db.View(), userId, q), q, s);
    }
  }

  // ---------- The date list of the picker ----------

  function DayStart(today: int, i: int): int {
    today + Wrap64(i * DAY)
  }

  ghost predicate SomethingOffered(t: Tables, userId: int, et: EventType, date: int, zone: Zone, now: int) {
    exists s :: Offered(t, userId, SlotQuery(et, date, zone, now), s)
  }

  ghost function DatesBelow(t: Tables, userId: int, et: EventType, today: int, zone: Zone, now: int, n: nat): seq<int> {
    if n == 0 then []
    else
      DatesBelow(t, userId, et, today, zone, now, n - 1)
      + if SomethingOffered(t, userId, et, DayStart(today, n - 1), zone, now) then [DayStart(today, n - 1)] else []
  }

  ghost predicate EveryDayTerminates(rules: seq<Rule>, et: EventType, zone: Zone, now: int) {
    forall i :: 0 <= i < et.bookingWindowDays ==>
                  Terminates(rules, SlotQuery(et, DayStart(zone.at(zone.dayOf(now), 0), i), zone, now))
  }

  method HasSlots(db: Database, userId: int, et: EventType, day: int, zone: Zone, now: int) returns (some: bool)
    requires Terminates(RulesOf(db.rules, userId), SlotQuery(et, day, zone, now))
    ensures some <==> SomethingOffered(db.View(), userId, et, day, zone, now)
  {
    var slots := CalculateSlotsFor(db, userId, SlotQuery(et, day, zone, now));
    some := |slots| > 0;
    assert some ==> slots[0] in slots;
  }

  /** internal/handler/public.go:98-100 and 119-127 */
  method PickerDates(db: Database, userId: int, et: EventType, zone: Zone, now: int) returns (dates: seq<int>)
    requires EveryDayTerminates(RulesOf(db.rules, userId), et, zone, now)
    ensures dates == DatesBelow(db.View(), userId, et, zone.at(zone.dayOf(now), 0), zone, now,
                                if et.bookingWindowDays > 0 then et.bookingWindowDays else 0)
  {
    var today := zone.at(zone.dayOf(now), 0);
    dates := [];
    var i := 0;
    while i < et.bookingWindowDays
      invariant 0 <= i && (i <= et.bookingWindowDays || i == 0)
      invariant dates == DatesBelow(db.View(), userId, et, today, zone, now, i)
    {
      var day := DayStart(today, i);
      var some := HasSlots(db, userId, et, day, zone, now);
      if some {
        dates := dates + [day];
      }
      i := i + 1;
    }
  }

  lemma {:induction false} DatesBelowExactly(t: Tables, userId: int, et: EventType, today: int, zone: Zone, now: int,
                                             n: nat, date: int)
    ensures date in DatesBelow(t, userId, et, today, zone, now, n) <==>
            exists i :: 0 <= i < n && date == DayStart(today, i) && SomethingOffered(t, userId, et, date, zone, now)
  {
    if n > 0 {
      DatesBelowExactly(t, userId, et, today, zone, now, n - 1, date);
      var last := DayStart(today, n - 1);
      if date == last && SomethingOffered(t, userId, et, date, zone, now) {
        assert 0 <= n - 1 < n;
      }
    }
  }

  lemma DayStartsGrow(today: int, i: int, j: int)
    requires 0 <= i < j <= MAX_WINDOW_DAYS
    ensures DayStart(today, i) < DayStart(today, j)
  {
  }

  ghost predicate Growing(dates: seq<int>) {
    forall i, j :: 0 <= i < j < |dates| ==> dates[i] < dates[j]
  }

  lemma GrowingSnoc(dates: seq<int>, last: int)
    requires Growing(dates) && forall d :: d in dates ==> d < last
    ensures Growing(dates + [last])
  {
    assert forall i :: 0 <= i < |dates| ==> dates[i] in dates;
  }

  lemma ListedBefore(t: Tables, userId: int, et: EventType, today: int, zone: Zone, now: int, n: nat, date: int)
    requires n <= MAX_WINDOW_DAYS && date in DatesBelow(t, userId, et, today, zone, now, n)
    ensures date < DayStart(today, n)
  {
    DatesBelowExactly(t, userId, et, today, zone, now, n, date);
    var i :| 0 <= i < n && date == DayStart(today, i);
    DayStartsGrow(today, i, n);
  }

  /** The list is in order, so its head, which the picker shows first, is the earliest day on it. */
  lemma {:induction false} DatesGrow(t: Tables, userId: int, et: EventType, today: int, zone: Zone, now: int, n: nat)
    requires n <= MAX_WINDOW_DAYS
    ensures Growing(DatesBelow(t, userId, et, today, zone, now, n))
  {
    if n > 0 {
      var front := DatesBelow(t, userId, et, today, zone, now, n - 1);
      DatesGrow(t, userId, et, today, zone, now, n - 1);
      forall d | d in front ensures d < DayStart(today, n - 1) {
        ListedBefore(t, userId, et, today, zone, now, n - 1, d);
      }
      GrowingSnoc(front, DayStart(today, n - 1));
      assert front + [] == front;
    }
  }

  /** Rule times as the form's time inputs give them, 00:00 to 23:59, or 24:00 as an end. */
  predicate DayTimes(rules: seq<Rule>) {
    forall r :: r in rules ==> 0 <= MinuteOfDay(r.startTime) <= 24 * 60 && 0 <= MinuteOfDay(r.endTime) <= 24 * 60
  }

  ghost predicate InstantsHaveDays(z: Zone) {
    forall t :: z.at(z.dayOf(t), 0) <= t < z.at(z.dayOf(t) + 1, 0)
  }

  ghost predicate MidnightsGrow(z: Zone) {
    forall d, e :: d < e ==> z.at(d, 0) < z.at(e, 0)
  }

  ghost predicate MinutesStayInDay(z: Zone) {
    forall d, m, e :: 0 <= m <= 24 * 60 && d < e ==> z.at(d, 0) <= z.at(d, m) <= z.at(e, 0)
  }

  /**
    * The civil days of a zone follow one another: an instant lies between the midnights of its day, and the minutes of
    * a day lie between its midnights. Changes of the offset are allowed, as long as they happen in between.
    */
  ghost predicate CivilDays(z: Zone) {
    InstantsHaveDays(z) && MidnightsGrow(z) && MinutesStayInDay(z)
  }

  lemma InstantInDay(offset: int, t: int)
    ensures FixedAt(offset, FixedDayOf(offset, t), 0) <= t < FixedAt(offset, FixedDayOf(offset, t) + 1, 0)
  {
  }

  lemma FixedInstants(offset: int)
    ensures InstantsHaveDays(Fixed(offset))
  {
    var z := Fixed(offset);
    forall t ensures z.at(z.dayOf(t), 0) <= t < z.at(z.dayOf(t) + 1, 0) {
      InstantInDay(offset, t);
    }
  }

  lemma FixedMidnights(offset: int)
    ensures MidnightsGrow(Fixed(offset))
  {
  }

  lemma MinuteInDay(offset: int, d: int, m: int, e: int)
    requires 0 <= m <= 24 * 60 && d < e
    ensures FixedAt(offset, d, 0) <= FixedAt(offset, d, m) <= FixedAt(offset, e, 0)
  {
  }

  lemma FixedMinutes(offset: int)
    ensures MinutesStayInDay(Fixed(offset))
  {
    var z := Fixed(offset);
    forall d, m, e | 0 <= m <= 24 * 60 && d < e ensures z.at(d, 0) <= z.at(d, m) <= z.at(e, 0) {
      MinuteInDay(offset, d, m, e);
    }
  }

  lemma FixedHasCivilDays(offset: int)
    ensures CivilDays(Fixed(offset))
  {
    FixedInstants(offset);
    FixedMidnights(offset);
    FixedMinutes(offset);
  }

  lemma BetweenMidnights(z: Zone, day: int, t: int)
    requires InstantsHaveDays(z) && MidnightsGrow(z) && z.at(day, 0) <= t < z.at(day + 1, 0)
    ensures z.dayOf(t) == day
  {
    var found := z.dayOf(t);
    assert z.at(found, 0) <= t < z.at(found + 1, 0);
  }

  lemma MidnightIsOnItsDay(z: Zone, day: int)
    requires CivilDays(z)
    ensures z.dayOf(z.at(day, 0)) == day
  {
    BetweenMidnights(z, day, z.at(day, 0));
  }

  lemma MinutesBetweenMidnights(z: Zone, day: int, m: int)
    requires CivilDays(z) && 0 <= m <= 24 * 60
    ensures z.at(day, 0) <= z.at(day, m) <= z.at(day + 1, 0)
  {
  }

  /** With day times every slot of a day starts on that day of the host. */
  lemma OfferedOnItsDay(t: Tables, userId: int, et: EventType, host: Zone, day: int, now: int, s: Slot)
    requires CivilDays(host) && DayTimes(RulesOf(t.rules, userId))
    requires Offered(t, userId, SlotQuery(et, host.at(day, 0), host, now), s)
    ensures host.dayOf(s.start) == day
  {
    var q := SlotQuery(et, host.at(day, 0), host, now);
    var r :| r in RulesOf(t.rules, userId) && RuleGives(r, s, q);
    MidnightIsOnItsDay(host, day);
    MinutesBetweenMidnights(host, day, MinuteOfDay(r.startTime));
    MinutesBetweenMidnights(host, day, MinuteOfDay(r.endTime));
    BetweenMidnights(host, day, s.start);
  }

  lemma DayStartFixed(offset: int, today: int, i: int)
    requires 0 <= i <= MAX_WINDOW_DAYS
    ensures DayStart(Fixed(offset).at(today, 0), i) == Fixed(offset).at(today + i, 0)
  {
  }

  lemma DayInWindow(offset: int, now: int, start: int, days: int)
    requires 0 < days <= MAX_WINDOW_DAYS && now < start <= WindowEnd(now, days)
    ensures Fixed(offset).dayOf(now) <= Fixed(offset).dayOf(start) <= Fixed(offset).dayOf(now) + days
  {
  }

  lemma OfferedDayInWindow(t: Tables, userId: int, et: EventType, offset: int, day: int, now: int)
    requires DayTimes(RulesOf(t.rules, userId)) && 0 < et.bookingWindowDays <= MAX_WINDOW_DAYS
    requires SomethingOffered(t, userId, et, Fixed(offset).at(day, 0), Fixed(offset), now)
    ensures Fixed(offset).dayOf(now) <= day <= Fixed(offset).dayOf(now) + et.bookingWindowDays
  {
    var zone := Fixed(offset);
    var s :| Offered(t, userId, SlotQuery(et, zone.at(day, 0), zone, now), s);
    FixedHasCivilDays(offset);
    OfferedOnItsDay(t, userId, et, zone, day, now, s);
    DayInWindow(offset, now, s.start, et.bookingWindowDays);
  }

  lemma DayIsListed(offset: int, today: int, days: int, day: int)
    requires days <= MAX_WINDOW_DAYS
    ensures today <= day < today + days <==>
            exists i :: 0 <= i < days && Fixed(offset).at(day, 0) == DayStart(Fixed(offset).at(today, 0), i)
  {
    if today <= day < today + days {
      DayStartFixed(offset, today, day - today);
    }
    if i :| 0 <= i < days && Fixed(offset).at(day, 0) == DayStart(Fixed(offset).at(today, 0), i) {
      DayStartFixed(offset, today, i);
    }
  }

  /**
    * With a constant offset the list that starts today names a day exactly when something is offered on it and it is
    * one of the next bookingWindowDays days, today included. Longer windows wrap (Slots.WindowEndExactly).
    */
  lemma DateListIsCompleteExactly(t: Tables, userId: int, et: EventType, offset: int, today: int, day: int, now: int)
    requires 0 < et.bookingWindowDays <= MAX_WINDOW_DAYS
    ensures var zone := Fixed(offset);
            zone.at(day, 0) in DatesBelow(t, userId, et, zone.at(today, 0), zone, now, et.bookingWindowDays) <==>
                               && today <= day < today + et.bookingWindowDays
                               && SomethingOffered(t, userId, et, zone.at(day, 0), zone, now)
  {
    var zone, days := Fixed(offset), et.bookingWindowDays;
    DatesBelowExactly(t, userId, et, zone.at(today, 0), zone, now, days, zone.at(day, 0));
    DayIsListed(offset, today, days, day);
  }

  /**
    * With rule times inside the day that leaves out one day, the last, cut-off one of the booking window, which the
    * loop never visits.
    */
  lemma OnlyLastDayIsOmitted(t: Tables, userId: int, et: EventType, offset: int, day: int, now: int)
    requires DayTimes(RulesOf(t.rules, userId)) && 0 < et.bookingWindowDays <= MAX_WINDOW_DAYS
    requires SomethingOffered(t, userId, et, Fixed(offset).at(day, 0), Fixed(offset), now)
    ensures var zone := Fixed(offset);
            var today := zone.dayOf(now);
            && today <= day <= today + et.bookingWindowDays
            && (zone.at(day, 0) in DatesBelow(t, userId, et, zone.at(today, 0), zone, now, et.bookingWindowDays)
                <==> day != today + et.bookingWindowDays)
  {
    OfferedDayInWindow(t, userId, et, offset, day, now);
    DateListIsCompleteExactly(t, userId, et, offset, Fixed(offset).dayOf(now), day, now);
  }

  const HALF_HOURS := EventType(7, 30, 60, true)

  const THURSDAY_MORNING := Rule(7, 4, FormatHHMM(9, 0), FormatHHMM(10, 0), true)
  const ONE_WEEK := EventType(7, 30, 7, true)
  const MORNING_HOST := Tables(map[1 := ONE_WEEK], map[], map[], [THURSDAY_MORNING], [])

  lemma OneRule(t: Tables, r: Rule)
    requires t.rules == [r]
    ensures RulesOf(t.rules, r.userId) == [r]
  {
    assert t.rules[..0] == [];
  }

  /** A host without rows in the other tables offers whatever the grid of the one rule has in the window. */
  lemma EmptyCalendarOffers(t: Tables, r: Rule, q: Query, s: Slot)
    requires t.rules == [r] && t.events == map[] && t.bookings == [] && InWindow(s, q) && RuleGives(r, s, q)
    ensures Offered(t, r.userId, q, s)
  {
    OneRule(t, r);
  }

  lemma MorningSlotIsOffered()
    ensures Offered(MORNING_HOST, 7, SlotQuery(ONE_WEEK, Utc().at(7, 0), Utc(), 12 * HOUR),
                    Slot(7 * DAY + 9 * HOUR, 7 * DAY + 9 * HOUR + 30 * MINUTE))
  {
    var q := SlotQuery(ONE_WEEK, Utc().at(7, 0), Utc(), 12 * HOUR);
    var s := Slot(7 * DAY + 9 * HOUR, 7 * DAY + 9 * HOUR + 30 * MINUTE);
    ParseInvertsFormat(9, 0);
    ParseInvertsFormat(10, 0);
    assert q.loc.dayOf(q.date) == 7 && WeekdayOf(7) == 4;
    assert RuleStart(THURSDAY_MORNING, q) == 7 * DAY + 9 * HOUR && RuleEnd(THURSDAY_MORNING, q) == 7 * DAY + 10 * HOUR;
    assert RuleGives(THURSDAY_MORNING, s, q);
    EmptyCalendarOffers(MORNING_HOST, THURSDAY_MORNING, q, s);
  }

  lemma LastDayIsOmitted(t: Tables, userId: int, et: EventType, offset: int, today: int, now: int)
    requires 0 < et.bookingWindowDays <= MAX_WINDOW_DAYS && Fixed(offset).dayOf(now) == today
    requires SomethingOffered(t, userId, et, Fixed(offset).at(today + et.bookingWindowDays, 0), Fixed(offset), now)
    ensures Fixed(offset).at(today + et.bookingWindowDays, 0)
            !in DatesBelow(t, userId, et, Fixed(offset).at(today, 0), Fixed(offset), now, et.bookingWindowDays)
  {
    DateListIsCompleteExactly(t, userId, et, offset, today, today + et.bookingWindowDays, now);
  }

  /**
    * On a Thursday noon, with a window of seven days, the next Thursday's first slot is offered on a day the list
    * leaves out.
    */
  lemma LastDayIsNotListed()
    ensures var noon := 12 * HOUR;
            var s := Slot(7 * DAY + 9 * HOUR, 7 * DAY + 9 * HOUR + 30 * MINUTE);
            && Offered(MORNING_HOST, 7, SlotQuery(ONE_WEEK, Utc().at(7, 0), Utc(), noon), s)
            && Utc().at(7, 0) !in DatesBelow(MORNING_HOST, 7, ONE_WEEK, Utc().at(0, 0), Utc(), noon, 7)
  {
    MorningSlotIsOffered();
    assert Utc().dayOf(12 * HOUR) == FixedDayOf(0, 12 * HOUR) == 0;
    LastDayIsOmitted(MORNING_HOST, 7, ONE_WEEK, 0, 0, 12 * HOUR);
  }

  // ---------- A duration of zero ----------

  lemma {:induction false} RuleOfUser(rules: seq<Rule>, r: Rule)
    requires r in rules
    ensures r in RulesOf(rules, r.userId)
  {
    if rules[|rules| - 1] != r {
      RuleOfUser(rules[..|rules| - 1], r);
    }
  }

  /**
    * The edit form stores a duration of zero, for instance for a text that is no number. From then on the grid loop of
    * every nine-to-five day has no step at which it comes to its exit.
    */
  lemma EditMakesGridLoopEndless(t: Tables, id: int, userId: int, windowDays: int, offset: int, day: int, now: int)
    requires Owned(t, id, userId) && Rule(userId, WeekdayOf(day), FormatHHMM(9, 0), FormatHHMM(17, 0), true) in t.rules
    ensures var r := Rule(userId, WeekdayOf(day), FormatHHMM(9, 0), FormatHHMM(17, 0), true);
            var t' := Administered(t, EditEventType(id, userId, 0, windowDays));
            var q := SlotQuery(t'.eventTypes[id], Fixed(offset).at(day, 0), Fixed(offset), now);
            && !Terminates(RulesOf(t'.rules, userId), q)
            && forall k: nat :: !ExitsAt(k, RuleStart(r, q), RuleEnd(r, q), q.duration)
  {
    var r := Rule(userId, WeekdayOf(day), FormatHHMM(9, 0), FormatHHMM(17, 0), true);
    var t' := Administered(t, EditEventType(id, userId, 0, windowDays));
    var q := SlotQuery(t'.eventTypes[id], Fixed(offset).at(day, 0), Fixed(offset), now);
    RuleOfUser(t.rules, r);
    FixedHasCivilDays(offset);
    MidnightIsOnItsDay(Fixed(offset), day);
    ParseInvertsFormat(9, 0);
    ParseInvertsFormat(17, 0);
    assert RuleStart(r, q) == FixedAt(offset, day, 9 * 60) && RuleEnd(r, q) == FixedAt(offset, day, 17 * 60);
    GridLoopExitsExactly(RuleStart(r, q), RuleEnd(r, q), 0);
    assert Matches(r, q);
  }

  // ---------- Submitting ----------

  /** Midnight, at the host, of the date that the submitted text shows in its own zone. */
  function SubmitDate(startAt: int, shownIn: Zone, host: Zone): int {
    host.at(shownIn.dayOf(startAt), 0)
  }

  /** The scan for the submitted start, internal/handler/public.go:199-206. */
  method FindSlot(available: seq<Slot>, startAt: int) returns (validSlot: bool)
    ensures validSlot <==> exists s :: s in available && s.start == startAt
  {
    validSlot := false;
    for i := 0 to |available|
      invariant !validSlot && forall j :: 0 <= j < i ==> available[j].start != startAt
    {
      if available[i].start == startAt {
        assert available[i] in available;
        validSlot := true;
        break;
      }
    }
  }

  ghost predicate StartOffered(t: Tables, userId: int, q: Query, startAt: int) {
    exists s :: Offered(t, userId, q, s) && s.start == startAt
  }

  /** internal/handler/public.go:199-210 */
  method CheckSlot(db: Database, userId: int, q: Query, startAt: int) returns (validSlot: bool)
    requires Terminates(RulesOf(db.rules, userId), q)
    ensures validSlot <==> StartOffered(db.View(), userId, q, startAt)
  {
    var available := CalculateSlotsFor(db, userId, q);
    validSlot := FindSlot(available, startAt);
  }

  function RequestedBooking(etId: int, et: EventType, guest: Guest, startAt: int, token: string,
                            reservedUntil: int): Booking {
    Booking(etId, guest, startAt, startAt + SlotLength(et), Pending, token, reservedUntil)
  }

  datatype SubmitError = NotFound | SlotGone | NotCreated(error: CreateError)

  /** What a submission does to the tables when nothing comes between its check and its commit. */
  ghost function Submitted(t: Tables, userId: int, etId: int, startAt: int, shownIn: Zone, host: Zone,
                           guest: Guest, token: string, now: int, reservedUntil: int): Result<Tables, SubmitError> {
    if !Owned(t, etId, userId) || !t.eventTypes[etId].active then Err(NotFound)
    else
      var et := t.eventTypes[etId];
      if !StartOffered(t, userId, SlotQuery(et, SubmitDate(startAt, shownIn, host), host, now), startAt)
      then Err(SlotGone)
      else
        match Inserted(t, RequestedBooking(etId, et, guest, startAt, token, reservedUntil))
        case Err(e) => Err(NotCreated(e))
        case Ok(t') => Ok(t')
  }

  /**
    * internal/handler/public.go:169-226. The slots are computed at now, the reservation counts from the later clock
    * value.
    */
  method HandleBookingSubmit(db: Database, userId: int, etId: int, startAt: int, shownIn: Zone, host: Zone,
                             guest: Guest, token: string, now: int, later: int, ttl: int)
    returns (r: Result<nat, SubmitError>)
    requires Owned(db.View(), etId, userId) && db.eventTypes[etId].active ==>
               Terminates(RulesOf(db.rules, userId),
                          SlotQuery(db.eventTypes[etId], SubmitDate(startAt, shownIn, host), host, now))
    modifies db
    ensures Submitted(old(db.View()), userId, etId, startAt, shownIn, host, guest, token, now, later + ttl) ==
            if r.Ok? then Ok(db.View()) else Err(r.error)
    ensures r.Err? ==> db.View() == old(db.View())
    ensures r == Err(NotFound) <==>
            !(etId in old(db.eventTypes) && old(db.eventTypes)[etId].userId == userId
              && old(db.eventTypes)[etId].active)
    ensures r.Ok? ==> Appends(old(db.bookings), db.bookings,
                              Booking(etId, guest, startAt, startAt
                                      + Wrap64(old(db.eventTypes)[etId].durationMinutes * MINUTE),
                                      Pending, token, later + ttl))
    ensures r.Ok? ==> FindByToken(db.bookings, token) == Some(r.value) && r.value == |old(db.bookings)|
  {
    if etId !in db.eventTypes || db.eventTypes[etId].userId != userId || !db.eventTypes[etId].active {
      return Err(NotFound);
    }
    var et := db.eventTypes[etId];
    var endAt := startAt + SlotLength(et);
    var date := SubmitDate(startAt, shownIn, host);
    var validSlot := CheckSlot(db, userId, SlotQuery(et, date, host, now), startAt);
    if !validSlot {
      return Err(SlotGone);
    }
    var created := db.CreateBooking(Booking(etId, guest, startAt, endAt, Pending, token, later + ttl));
    if created.Err? {
      return Err(NotCreated(created.error));
    }
    return Ok(created.value);
  }

  // ---------- The two conflict tests agree ----------

  /** The joins of CreateBooking ask what the slot calculator asks of all rows of the host. */
  lemma ConflictTestsAgree(t: Tables, b: Booking, userId: int)
    requires Owned(t, b.eventTypeId, userId)
    ensures EventConflict(t, b) <==> EventBusy(Slot(b.startAt, b.endAt), EventsOf(t, userId))
    ensures BookingConflict(t, b) <==> BookingBusy(Slot(b.startAt, b.endAt), BookingsOf(t, userId))
  {
  }

  // ---------- Check, then act ----------

  /** Some statements, those of half-finished operations included, lead from w to w'. */
  ghost predicate Later(w: World, w': World) {
    exists stmts :: ExecAll(w, stmts) == w'
  }

  lemma LaterKeepsRows(w: World, w': World)
    requires Known(w.tables) && Later(w, w')
    ensures Known(w'.tables) && HostsKept(w.tables, w'.tables)
  {
    var stmts :| ExecAll(w, stmts) == w';
    RunKeepsRows(w, stmts);
  }

  /**
    * A submission reads the event type in one state, the rules, the events and the bookings in three later ones, and
    * commits in another, with any statements of others in between. If the start was offered and the commit succeeds,
    * the new row is PENDING, lies on the grid of the host's rules as they were read, has the positive length of the
    * event type as it was read, starts after the clock was read and no later than the window end, and overlaps no event
    * and no live booking that the host has at the commit, whatever the earlier reads saw.
    */
  lemma CheckThenActIsSafe(read: World, rules: World, events: World, bookings: World, commit: World, userId: int,
                           etId: int, startAt: int, shownIn: Zone, host: Zone, guest: Guest, token: string, now: int,
                           reservedUntil: int, offered: Slot)
    requires Later(read, rules) && Later(rules, events) && Later(events, bookings) && Later(bookings, commit)
    requires Known(read.tables) && Owned(read.tables, etId, userId)
    requires var et := read.tables.eventTypes[etId];
             var q := SlotQuery(et, SubmitDate(startAt, shownIn, host), host, now);
             && OfferedFrom(rules.tables, events.tables, bookings.tables, userId, q, offered)
             && offered.start == startAt
             && Inserted(commit.tables, RequestedBooking(etId, et, guest, startAt, token, reservedUntil)).Ok?
    ensures var et := read.tables.eventTypes[etId];
            var q := SlotQuery(et, SubmitDate(startAt, shownIn, host), host, now);
            var before := commit.tables;
            var after := Inserted(before, RequestedBooking(etId, et, guest, startAt, token, reservedUntil)).value;
            var b := after.bookings[|before.bookings|];
            var slot := Slot(b.startAt, b.endAt);
            && after == before.(bookings := before.bookings + [b]) && b.status == Pending
            && Owned(after, b.eventTypeId, userId)
            && slot == offered && slot.start == startAt
            && 0 < slot.end - slot.start == Wrap64(et.durationMinutes * MINUTE)
            && (exists r :: r in RulesOf(rules.tables.rules, userId) && RuleGives(r, slot, q))
            && now < slot.start <= WindowEnd(now, et.bookingWindowDays)
            && !EventBusy(slot, EventsOf(after, userId))
            && !BookingBusy(slot, BookingsOf(before, userId))
  {
    LaterKeepsRows(read, rules);
    LaterKeepsRows(rules, events);
    LaterKeepsRows(events, bookings);
    LaterKeepsRows(bookings, commit);
    var b := RequestedBooking(etId, read.tables.eventTypes[etId], guest, startAt, token, reservedUntil);
    ConflictTestsAgree(commit.tables, b, userId);
    assert offered == Slot(b.startAt, b.endAt);
  }

  // ---------- Purging the cache ----------

  lemma PurgedRows(t: Tables, calendarId: int, before: int, userId: int)
    ensures PurgedOf(EventsOf(t.(events := Purged(t.events, calendarId, before)), userId), EventsOf(t, userId), before)
  {
  }

  /**
    * At the clock value of the bound or later, a purge shows neither in the slots that the pages offer nor in what
    * CreateBooking answers for a start that is not before the bound.
    */
  lemma PurgeIsUnobservable(t: Tables, calendarId: int, before: int, userId: int, q: Query, s: Slot, b: Booking)
    requires before <= q.now && before <= b.startAt && Owned(t, b.eventTypeId, userId)
    ensures var t' := t.(events := Purged(t.events, calendarId, before));
            && (Offered(t', userId, q, s) <==> Offered(t, userId, q, s))
            && (Inserted(t', b).Err? <==> Inserted(t, b).Err?)
            && (Inserted(t, b).Err? ==> Inserted(t', b) == Inserted(t, b))
  {
    var t' := t.(events := Purged(t.events, calendarId, before));
    PurgedRows(t, calendarId, before, userId);
    assert BookingsOf(t', userId) == BookingsOf(t, userId);
    ConflictTestsAgree(t, b, userId);
    ConflictTestsAgree(t', b, userId);
    PurgeUnseen(EventsOf(t', userId), EventsOf(t, userId), before, Slot(b.startAt, b.endAt));
    assert BookingConflict(t', b) <==> BookingConflict(t, b);
    assert PurgedOf(FetchedEvents(t', userId, q), FetchedEvents(t, userId, q), before);
    if InWindow(s, q) {
      PurgeUnseen(FetchedEvents(t', userId, q), FetchedEvents(t, userId, q), before, s);
    }
  }

  /** The events of m' are those of m without some that ended before the bound. */
  ghost predicate LessPurged(m: map<EventKey, CalendarEvent>, m': map<EventKey, CalendarEvent>, before: int) {
    && (forall k :: k in m' ==> k in m && m'[k] == m[k])
    && (forall k :: k in m && k !in m' ==> m[k].endAt < before)
  }

  ghost predicate DifferByPurge(w: World, w': World, before: int) {
    && w'.(tables := w'.tables.(events := w.tables.events)) == w
    && LessPurged(w.tables.events, w'.tables.events, before)
  }

  lemma SameEventConflict(w: World, w': World, before: int, b: Booking)
    requires DifferByPurge(w, w', before) && before <= b.startAt
    ensures EventConflict(w'.tables, b) <==> EventConflict(w.tables, b)
  {
    if k :| k in w.tables.events && HostsEvent(w.tables, b, k)
            && Overlaps(w.tables.events[k].startAt, w.tables.events[k].endAt, b.startAt, b.endAt) {
      assert k in w'.tables.events && HostsEvent(w'.tables, b, k);
    }
    if k :| k in w'.tables.events && HostsEvent(w'.tables, b, k)
            && Overlaps(w'.tables.events[k].startAt, w'.tables.events[k].endAt, b.startAt, b.endAt) {
      assert k in w.tables.events && HostsEvent(w.tables, b, k);
    }
  }

  lemma CreateKeepsPurgeUnseen(w: World, w': World, before: int, b: Booking)
    requires DifferByPurge(w, w', before) && before <= b.startAt
    ensures DifferByPurge(Exec(w, Create(b)), Exec(w', Create(b)), before)
  {
    SameEventConflict(w, w', before, b);
    assert BookingConflict(w'.tables, b) <==> BookingConflict(w.tables, b);
  }

  lemma UpsertsKeepPurgeUnseen(m: map<EventKey, CalendarEvent>, m': map<EventKey, CalendarEvent>, before: int,
                               key: EventKey, event: CalendarEvent)
    requires LessPurged(m, m', before)
    ensures LessPurged(m[key := event], m'[key := event], before)
  {
  }

  lemma PurgesKeepPurgeUnseen(m: map<EventKey, CalendarEvent>, m': map<EventKey, CalendarEvent>, before: int,
                              calendarId: int, until: int)
    requires LessPurged(m, m', before)
    ensures LessPurged(Purged(m, calendarId, until), Purged(m', calendarId, until), before)
  {
  }

  lemma AdminKeepsPurgeUnseen(w: World, w': World, before: int, a: Admin)
    requires DifferByPurge(w, w', before)
    ensures DifferByPurge(Exec(w, Administer(a)), Exec(w', Administer(a)), before)
  {
    var m, m' := w.tables.events, w'.tables.events;
    match a
    case UpsertEvent(key, event) => UpsertsKeepPurgeUnseen(m, m', before, key, event);
    case PurgeEvents(id, until) => PurgesKeepPurgeUnseen(m, m', before, id, until);
    case _ =>
      assert Administered(w'.tables, a).(events := m) == Administered(w.tables, a);
  }

  lemma BookingStepKeepsPurgeUnseen(w: World, w': World, before: int, s: Stmt)
    requires DifferByPurge(w, w', before) && !s.Create? && !s.Administer?
    ensures DifferByPurge(Exec(w, s), Exec(w', s), before)
  {
    assert w'.tables.bookings == w.tables.bookings && w'.inFlight == w.inFlight;
    match s
    case Perform(k) => assert w'.raised == w.raised && w'.sent == w.sent;
    case _ =>
  }

  lemma ExecKeepsPurgeUnseen(w: World, w': World, before: int, s: Stmt)
    requires DifferByPurge(w, w', before) && (s.Create? ==> before <= s.b.startAt)
    ensures DifferByPurge(Exec(w, s), Exec(w', s), before)
  {
    match s
    case Create(b) => CreateKeepsPurgeUnseen(w, w', before, b);
    case Administer(a) => AdminKeepsPurgeUnseen(w, w', before, a);
    case _ => BookingStepKeepsPurgeUnseen(w, w', before, s);
  }

  lemma {:induction false} RunKeepsPurgeUnseen(w: World, w': World, before: int, stmts: seq<Stmt>)
    requires DifferByPurge(w, w', before)
    requires forall s :: s in stmts && s.Create? ==> before <= s.b.startAt
    ensures DifferByPurge(ExecAll(w, stmts), ExecAll(w', stmts), before)
    decreases |stmts|
  {
    if stmts != [] {
      ExecKeepsPurgeUnseen(w, w', before, stmts[0]);
      RunKeepsPurgeUnseen(Exec(w, stmts[0]), Exec(w', stmts[0]), before, stmts[1..]);
    }
  }

  lemma OfferedDespitePurge(w: World, w': World, before: int, userId: int, q: Query, s: Slot)
    requires DifferByPurge(w, w', before) && before <= q.now
    ensures Offered(w'.tables, userId, q, s) <==> Offered(w.tables, userId, q, s)
  {
    assert BookingsOf(w'.tables, userId) == BookingsOf(w.tables, userId);
    assert PurgedOf(FetchedEvents(w'.tables, userId, q), FetchedEvents(w.tables, userId, q), before);
    if InWindow(s, q) {
      PurgeUnseen(FetchedEvents(w'.tables, userId, q), FetchedEvents(w.tables, userId, q), before, s);
    }
  }

  /**
    * A purge is never noticed afterwards: whatever statements follow, with creates that start at the bound or later,
    * bookings, writes in flight and notices are the same as without it, and so is every list of slots computed at the
    * clock value of the bound or later.
    */
  lemma PurgeStaysUnobservable(w: World, calendarId: int, before: int, stmts: seq<Stmt>, userId: int, q: Query, s: Slot)
    requires before <= q.now && forall stmt :: stmt in stmts && stmt.Create? ==> before <= stmt.b.startAt
    ensures var end := ExecAll(w, stmts);
            var end' := ExecAll(Exec(w, Administer(PurgeEvents(calendarId, before))), stmts);
            && end'.(tables := end'.tables.(events := end.tables.events)) == end
            && (Offered(end'.tables, userId, q, s) <==> Offered(end.tables, userId, q, s))
  {
    var purged := Exec(w, Administer(PurgeEvents(calendarId, before)));
    RunKeepsPurgeUnseen(w, purged, before, stmts);
    OfferedDespitePurge(ExecAll(w, stmts), ExecAll(purged, stmts), before, userId, q, s);
  }

  // ---------- Is every offered slot accepted? ----------

  /** Being free depends on the clock and the window of a query, not on its date. */
  lemma OfferedForDate(t: Tables, userId: int, et: EventType, date: int, date': int, zone: Zone, now: int, s: Slot)
    requires Offered(t, userId, SlotQuery(et, date, zone, now), s)
    ensures StartOffered(t, userId, SlotQuery(et, date', zone, now), s.start) <==>
            exists r :: r in RulesOf(t.rules, userId) && RuleGives(r, s, SlotQuery(et, date', zone, now))
  {
    var q, q' := SlotQuery(et, date, zone, now), SlotQuery(et, date', zone, now);
    assert FetchedEvents(t, userId, q) == FetchedEvents(t, userId, q')
           && FetchedBookings(t, userId, q) == FetchedBookings(t, userId, q');
    if x :| Offered(t, userId, q', x) && x.start == s.start {
      assert x == s;
    }
    if r :| r in RulesOf(t.rules, userId) && RuleGives(r, s, q') {
      assert Offered(t, userId, q', s);
    }
  }

  lemma DayTimesCheckExactly(t: Tables, userId: int, et: EventType, host: Zone, day: int, shownDay: int, now: int,
                             s: Slot)
    requires CivilDays(host) && DayTimes(RulesOf(t.rules, userId))
    requires Offered(t, userId, SlotQuery(et, host.at(day, 0), host, now), s)
    ensures StartOffered(t, userId, SlotQuery(et, host.at(shownDay, 0), host, now), s.start) <==> shownDay == day
  {
    OfferedOnItsDay(t, userId, et, host, day, now, s);
    if x :| Offered(t, userId, SlotQuery(et, host.at(shownDay, 0), host, now), x) && x.start == s.start {
      OfferedOnItsDay(t, userId, et, host, shownDay, now, x);
    }
  }

  /**
    * The check of a submission finds an offered slot exactly when a rule also gives it on the day that the text shows.
    * With rule times inside the day that is: exactly when the text shows the day under which it was offered.
    */
  lemma CheckPassesExactly(t: Tables, userId: int, et: EventType, host: Zone, day: int, shownIn: Zone, now: int,
                           s: Slot)
    requires Offered(t, userId, SlotQuery(et, host.at(day, 0), host, now), s)
    ensures var shown := SlotQuery(et, SubmitDate(s.start, shownIn, host), host, now);
            && (StartOffered(t, userId, shown, s.start) <==>
                exists r :: r in RulesOf(t.rules, userId) && RuleGives(r, s, shown))
            && (CivilDays(host) && DayTimes(RulesOf(t.rules, userId)) ==>
                  (StartOffered(t, userId, shown, s.start) <==> shownIn.dayOf(s.start) == day))
  {
    OfferedForDate(t, userId, et, host.at(day, 0), SubmitDate(s.start, shownIn, host), host, now, s);
    if CivilDays(host) && DayTimes(RulesOf(t.rules, userId)) {
      DayTimesCheckExactly(t, userId, et, host, day, shownIn.dayOf(s.start), now, s);
    }
  }

  /**
    * A slot that the picker offers, submitted at once, is booked exactly when three things hold: a rule gives it on the
    * day that the submitted text shows; it does not run past the window end into a row that was not fetched; the token
    * is new. With rule times inside the day the first means that the text shows the day at the host. The page always
    * shows UTC.
    */
  lemma OfferedSlotIsBookedExactly(t: Tables, userId: int, etId: int, host: Zone, day: int, shownIn: Zone, guest: Guest,
                                   token: string, now: int, reservedUntil: int, s: Slot)
    requires Owned(t, etId, userId) && t.eventTypes[etId].active
    requires Offered(t, userId, SlotQuery(t.eventTypes[etId], host.at(day, 0), host, now), s)
    ensures var et := t.eventTypes[etId];
            var shown := SlotQuery(et, SubmitDate(s.start, shownIn, host), host, now);
            var booked := Submitted(t, userId, etId, s.start, shownIn, host, guest, token, now, reservedUntil).Ok?;
            var clear := !HiddenConflict(s, EventsOf(t, userId), BookingsOf(t, userId),
                                         WindowEnd(now, et.bookingWindowDays))
                         && !TokenTaken(t, token);
            && (booked <==> (exists r :: r in RulesOf(t.rules, userId) && RuleGives(r, s, shown)) && clear)
            && (CivilDays(host) && DayTimes(RulesOf(t.rules, userId)) ==>
                  (booked <==> shownIn.dayOf(s.start) == day && clear))
  {
    var et := t.eventTypes[etId];
    var q := SlotQuery(et, host.at(day, 0), host, now);
    CheckPassesExactly(t, userId, et, host, day, shownIn, now, s);
    var b := RequestedBooking(etId, et, guest, s.start, token, reservedUntil);
    assert s == Slot(b.startAt, b.endAt);
    ConflictTestsAgree(t, b, userId);
    PrefetchSees(s, EventsOf(t, userId), BookingsOf(t, userId), q);
  }

  // ---------- A host west of Greenwich ----------

  const UTC_MINUS_8 := -8 * HOUR
  const THURSDAY_EVENING := Rule(7, 4, FormatHHMM(16, 0), FormatHHMM(17, 0), true)
  const WEST_COAST := Tables(map[1 := HALF_HOURS], map[], map[], [THURSDAY_EVENING], [])

  lemma EveningSlotIsOffered()
    ensures RulesOf(WEST_COAST.rules, 7) == [THURSDAY_EVENING] && DayTimes([THURSDAY_EVENING])
    ensures Offered(WEST_COAST, 7, SlotQuery(HALF_HOURS, Fixed(UTC_MINUS_8).at(0, 0), Fixed(UTC_MINUS_8), 0),
                    Slot(DAY, DAY + 30 * MINUTE))
  {
    var q := SlotQuery(HALF_HOURS, Fixed(UTC_MINUS_8).at(0, 0), Fixed(UTC_MINUS_8), 0);
    ParseInvertsFormat(16, 0);
    ParseInvertsFormat(17, 0);
    OneRule(WEST_COAST, THURSDAY_EVENING);
    assert q.loc.dayOf(q.date) == 0 && WeekdayOf(0) == 4;
    assert RuleStart(THURSDAY_EVENING, q) == DAY && RuleEnd(THURSDAY_EVENING, q) == DAY + HOUR;
    EmptyCalendarOffers(WEST_COAST, THURSDAY_EVENING, q, Slot(DAY, DAY + 30 * MINUTE));
  }

  lemma EveningCheckFails()
    ensures var host := Fixed(UTC_MINUS_8);
            !StartOffered(WEST_COAST, 7, SlotQuery(HALF_HOURS, SubmitDate(DAY, Utc(), host), host, 0), DAY)
  {
    EveningSlotIsOffered();
    FixedHasCivilDays(UTC_MINUS_8);
    assert Utc().dayOf(DAY) == FixedDayOf(0, DAY) == 1;
    CheckPassesExactly(WEST_COAST, 7, HALF_HOURS, Fixed(UTC_MINUS_8), 0, Utc(), 0, Slot(DAY, DAY + 30 * MINUTE));
  }

  /** At UTC-8 the four o'clock slot of day 0 is offered, but its UTC date is day 1 and the submission is refused. */
  lemma EveningSlotIsRefused(guest: Guest, token: string, reservedUntil: int)
    ensures var s := Slot(DAY, DAY + 30 * MINUTE);
            && Offered(WEST_COAST, 7, SlotQuery(HALF_HOURS, Fixed(UTC_MINUS_8).at(0, 0), Fixed(UTC_MINUS_8), 0), s)
            && Submitted(WEST_COAST, 7, 1, s.start, Utc(), Fixed(UTC_MINUS_8), guest, token, 0, reservedUntil) ==
               Err(SlotGone)
  {
    EveningSlotIsOffered();
    EveningCheckFails();
  }

  // ---------- A rule that runs past midnight ----------

  /** The availability form stores any text as a time. */
  const AFTER_MIDNIGHT := Rule(7, 4, FormatHHMM(24, 30), FormatHHMM(25, 30), true)
  const NIGHT_HOST := Tables(map[1 := HALF_HOURS], map[], map[], [AFTER_MIDNIGHT], [])
  const NIGHT_SLOT := Slot(DAY + 30 * MINUTE, DAY + 60 * MINUTE)

  lemma AfterMidnightSlotIsOffered()
    ensures Offered(NIGHT_HOST, 7, SlotQuery(HALF_HOURS, Utc().at(0, 0), Utc(), 0), NIGHT_SLOT)
  {
    var q := SlotQuery(HALF_HOURS, Utc().at(0, 0), Utc(), 0);
    ParseInvertsFormat(24, 30);
    ParseInvertsFormat(25, 30);
    assert q.loc.dayOf(q.date) == 0 && WeekdayOf(0) == 4;
    assert RuleStart(AFTER_MIDNIGHT, q) == DAY + 30 * MINUTE && RuleEnd(AFTER_MIDNIGHT, q) == DAY + 90 * MINUTE;
    EmptyCalendarOffers(NIGHT_HOST, AFTER_MIDNIGHT, q, NIGHT_SLOT);
  }

  lemma NoRuleOnFriday()
    ensures !exists r :: r in RulesOf(NIGHT_HOST.rules, 7)
                         && RuleGives(r, NIGHT_SLOT, SlotQuery(HALF_HOURS, Utc().at(1, 0), Utc(), 0))
  {
    OneRule(NIGHT_HOST, AFTER_MIDNIGHT);
    assert Utc().dayOf(Utc().at(1, 0)) == FixedDayOf(0, FixedAt(0, 1, 0)) == 1 && WeekdayOf(1) == 5;
  }

  /**
    * A host in UTC whose Thursday runs from 24:30 to 25:30 offers half past midnight on the list of Thursday. The text
    * shows Friday, as the host's clock does, and the submission is refused.
    */
  lemma AfterMidnightSlotIsRefused(guest: Guest, token: string, reservedUntil: int)
    ensures Offered(NIGHT_HOST, 7, SlotQuery(HALF_HOURS, Utc().at(0, 0), Utc(), 0), NIGHT_SLOT)
    ensures Submitted(NIGHT_HOST, 7, 1, NIGHT_SLOT.start, Utc(), Utc(), guest, token, 0, reservedUntil) == Err(SlotGone)
  {
    AfterMidnightSlotIsOffered();
    NoRuleOnFriday();
    assert Utc().dayOf(NIGHT_SLOT.start) == FixedDayOf(0, NIGHT_SLOT.start) == 1;
    CheckPassesExactly(NIGHT_HOST, 7, HALF_HOURS, Utc(), 0, Utc(), 0, NIGHT_SLOT);
  }
}
