/** Two runs that the program can make and in which the documented guarantees fail. */
module Races {
  import opened Entities
  import opened Schema
  import opened Interleaving
  import opened Decisions
  import opened Slots
  import opened Public

  /** A statement and the clock value at which it is made. */
  datatype Moment = Moment(at: int, stmt: Stmt)

  /** The default of INVITO_BOOKING_TTL, internal/config/config.go:78. */
  const TTL := 24 * HOUR

  /**
    * The program makes the statement at that clock value, for a host in UTC: a create is what a submission asks for
    * after its check has found the start offered, and a sweep reads the rows that have expired by then.
    */
  ghost predicate Makes(w: World, m: Moment) {
    match m.stmt
    case Create(b) =>
      && b.eventTypeId in w.tables.eventTypes
      && var et := w.tables.eventTypes[b.eventTypeId];
      && et.active && b == RequestedBooking(b.eventTypeId, et, b.guest, b.startAt, b.token, m.at + TTL)
      && StartOffered(w.tables, et.userId, SlotQuery(et, SubmitDate(b.startAt, Utc(), Utc()), Utc(), m.at), b.startAt)
    case ReadForSweep(now) => now == m.at
    case _ => true
  }

  /** The program can make this run, from since on, and it leads from w to end. */
  ghost predicate Leads(w: World, run: seq<Moment>, since: int, end: World)
    decreases |run|
  {
    if run == [] then w == end
    else since <= run[0].at && Makes(w, run[0]) && Leads(Exec(w, run[0].stmt), run[1..], run[0].at, end)
  }

  function Stmts(run: seq<Moment>): seq<Stmt> {
    seq(|run|, i requires 0 <= i < |run| => run[i].stmt)
  }

  lemma {:induction false} LeadsToEnd(w: World, run: seq<Moment>, since: int, end: World)
    requires Leads(w, run, since, end)
    ensures ExecAll(w, Stmts(run)) == end
    decreases |run|
  {
    if run != [] {
      LeadsToEnd(Exec(w, run[0].stmt), run[1..], run[0].at, end);
      assert Stmts(run)[1..] == Stmts(run[1..]);
    }
  }

  lemma LeadsBefore(run: seq<Moment>, i: nat, w: World, next: World, since: int, end: World)
    requires i < |run| && since <= run[i].at && Makes(w, run[i]) && Exec(w, run[i].stmt) == next
    requires Leads(next, run[i + 1..], run[i].at, end)
    ensures Leads(w, run[i..], since, end)
  {
    assert run[i..][0] == run[i] && run[i..][1..] == run[i + 1..];
  }

  // ---------- A host who offers one hour on Saturdays ----------

  const FRESH := World(EMPTY_TABLES, [], {}, [])
  const NO_GUEST := Guest("", "", "")
  const SATURDAY := 2 * DAY
  const SATURDAY_HOUR := Rule(7, 6, FormatHHMM(0, 0), FormatHHMM(1, 0), true)

  function Rows(rows: seq<Booking>): Tables {
    Tables(map[1 := HALF_HOURS], map[], map[], [SATURDAY_HOUR], rows)
  }

  /** A guest asks for the first half hour of Saturday, the day after tomorrow. */
  function HalfHour(token: string, at: int): Booking {
    Booking(1, NO_GUEST, SATURDAY, SATURDAY + 30 * MINUTE, Pending, token, at + TTL)
  }

  lemma SaturdayRule()
    ensures MinuteOfDay(SATURDAY_HOUR.startTime) == 0 && MinuteOfDay(SATURDAY_HOUR.endTime) == 60
  {
    ParseInvertsFormat(0, 0);
    ParseInvertsFormat(1, 0);
  }

  lemma SaturdaySlotGiven(now: int)
    ensures var q := SlotQuery(HALF_HOURS, SubmitDate(SATURDAY, Utc(), Utc()), Utc(), now);
            RuleGives(SATURDAY_HOUR, Slot(SATURDAY, SATURDAY + 30 * MINUTE), q)
  {
    var q := SlotQuery(HALF_HOURS, SubmitDate(SATURDAY, Utc(), Utc()), Utc(), now);
    SaturdayRule();
    assert Utc().dayOf(SATURDAY) == FixedDayOf(0, SATURDAY) == 2;
    assert q.loc.dayOf(q.date) == FixedDayOf(0, FixedAt(0, 2, 0)) == 2 && WeekdayOf(2) == 6;
    assert RuleStart(SATURDAY_HOUR, q) == SATURDAY && RuleEnd(SATURDAY_HOUR, q) == SATURDAY + HOUR;
  }

  /** With no live row in the way the slot is offered today and tomorrow. */
  lemma DeadRowsOffer(rows: seq<Booking>, now: int)
    requires (forall b :: b in rows ==> !Live(b.status)) && 0 <= now <= DAY
    ensures StartOffered(Rows(rows), 7, SlotQuery(HALF_HOURS, SubmitDate(SATURDAY, Utc(), Utc()), Utc(), now), SATURDAY)
  {
    var q := SlotQuery(HALF_HOURS, SubmitDate(SATURDAY, Utc(), Utc()), Utc(), now);
    var s := Slot(SATURDAY, SATURDAY + 30 * MINUTE);
    OneRule(Rows(rows), SATURDAY_HOUR);
    SaturdaySlotGiven(now);
    assert Offered(Rows(rows), 7, q, s);
  }

  lemma HalfHourIsMade(rows: seq<Booking>, w: World, token: string, at: int)
    requires (forall b :: b in rows ==> !Live(b.status) && b.token != token) && 0 <= at <= DAY && w.tables == Rows(rows)
    ensures Makes(w, Moment(at, Create(HalfHour(token, at))))
    ensures Exec(w, Create(HalfHour(token, at))) == w.(tables := Rows(rows + [HalfHour(token, at)]))
  {
    DeadRowsOffer(rows, at);
    var b := HalfHour(token, at);
    assert !BookingConflict(w.tables, b) && !EventConflict(w.tables, b) && !TokenTaken(w.tables, token);
    assert b.(status := Pending) == b;
  }

  // ---------- The first guest ----------

  const FIRST := HalfHour("a", 0)

  const SETUP := [
    Moment(0, Administer(AddEventType(1, HALF_HOURS))),
    Moment(0, Administer(ReplaceRules(7, [SATURDAY_HOUR]))),
    Moment(0, Create(FIRST))]

  const OPEN := World(Rows([]), [], {}, [])
  const RESERVED := World(Rows([FIRST]), [], {}, [])

  lemma RulesReplaced()
    ensures Exec(World(Rows([]).(rules := []), [], {}, []), Administer(ReplaceRules(7, [SATURDAY_HOUR]))) == OPEN
  {
    assert RulesFor(7, [SATURDAY_HOUR]) == [SATURDAY_HOUR];
  }

  lemma FirstGuestAsks(rest: seq<Moment>, end: World)
    requires Leads(RESERVED, rest, 0, end)
    ensures Leads(FRESH, SETUP + rest, 0, end)
  {
    var run, typed := SETUP + rest, World(Rows([]).(rules := []), [], {}, []);
    assert run[3..] == rest;
    HalfHourIsMade([], OPEN, "a", 0);
    assert [] + [FIRST] == [FIRST];
    LeadsBefore(run, 2, OPEN, RESERVED, 0, end);
    RulesReplaced();
    LeadsBefore(run, 1, typed, OPEN, 0, end);
    LeadsBefore(run, 0, FRESH, typed, 0, end);
    assert run[0..] == run;
  }

  lemma FirstIsFound()
    ensures PendingRow([FIRST], "a") == Some(0) && ExpiredIds([FIRST], TTL) == [0]
  {
    assert [FIRST][..0] == [];
  }

  lemma FirstIsRead(w: World)
    requires w.tables == Rows([FIRST])
    ensures Exec(w, ReadForConfirm("a")) == w.(inFlight := w.inFlight + [ConfirmWrite(0)])
    ensures Exec(w, ReadForReject("a")) == w.(inFlight := w.inFlight + [RejectWrite(0)])
    ensures Exec(w, ReadForSweep(TTL)) == w.(inFlight := w.inFlight + [CancelWrite([0])])
  {
    FirstIsFound();
  }

  /** What the second guest finds: the first one's row, dead. */
  lemma SecondGuestAsks(w: World, dead: Status, at: int)
    requires w.tables == Rows([FIRST.(status := dead)]) && !Live(dead) && 0 <= at <= DAY
    ensures Makes(w, Moment(at, Create(HalfHour("b", at))))
    ensures Exec(w, Create(HalfHour("b", at))) == w.(tables := Rows([FIRST.(status := dead), HalfHour("b", at)]))
  {
    assert "a"[0] != "b"[0];
    HalfHourIsMade([FIRST.(status := dead)], w, "b", at);
    assert [FIRST.(status := dead)] + [HalfHour("b", at)] == [FIRST.(status := dead), HalfHour("b", at)];
  }

  // ---------- The host clicks twice ----------

  /**
    * The host opens the confirm and the reject link, both read, reject writes. A second guest takes the freed slot, and
    * then confirm writes.
    */
  const CLICKED_TWICE := [
    Moment(0, ReadForConfirm("a")),
    Moment(0, ReadForReject("a")),
    Moment(0, Perform(1)),
    Moment(0, Create(HalfHour("b", 0))),
    Moment(0, Perform(0))]

  const REJECTED_ROW := FIRST.(status := Rejected)
  const BOTH_CLICKS := World(Rows([FIRST]), [ConfirmWrite(0), RejectWrite(0)], {}, [])
  const TOLD_NO := World(Rows([REJECTED_ROW]), [ConfirmWrite(0)], {}, [Notice(0, Rejected)])
  const GIVEN_AWAY := World(Rows([REJECTED_ROW, HalfHour("b", 0)]), [ConfirmWrite(0)], {}, [Notice(0, Rejected)])
  const DOUBLE_BOOKED :=
    World(Rows([FIRST.(status := Confirmed), HalfHour("b", 0)]), [], {0}, [Notice(0, Rejected), Notice(0, Confirmed)])

  lemma RejectLands()
    ensures Exec(BOTH_CLICKS, Perform(1)) == TOLD_NO
  {
    assert Exec(BOTH_CLICKS, Perform(1)).tables.bookings == [REJECTED_ROW];
  }

  lemma ConfirmLandsLate()
    ensures Exec(GIVEN_AWAY, Perform(0)) == DOUBLE_BOOKED
  {
    assert Exec(GIVEN_AWAY, Perform(0)).tables.bookings == [FIRST.(status := Confirmed), HalfHour("b", 0)];
  }

  lemma ClickedTwiceEnds()
    ensures Leads(TOLD_NO, CLICKED_TWICE[3..], 0, DOUBLE_BOOKED)
  {
    ConfirmLandsLate();
    LeadsBefore(CLICKED_TWICE, 4, GIVEN_AWAY, DOUBLE_BOOKED, 0, DOUBLE_BOOKED);
    SecondGuestAsks(TOLD_NO, Rejected, 0);
    LeadsBefore(CLICKED_TWICE, 3, TOLD_NO, GIVEN_AWAY, 0, DOUBLE_BOOKED);
  }

  lemma RejectComesFirst()
    ensures Leads(BOTH_CLICKS, CLICKED_TWICE[2..], 0, DOUBLE_BOOKED)
  {
    ClickedTwiceEnds();
    RejectLands();
    LeadsBefore(CLICKED_TWICE, 2, BOTH_CLICKS, TOLD_NO, 0, DOUBLE_BOOKED);
  }

  lemma ClickedTwiceLeads()
    ensures Leads(RESERVED, CLICKED_TWICE, 0, DOUBLE_BOOKED)
  {
    var confirming := RESERVED.(inFlight := [ConfirmWrite(0)]);
    RejectComesFirst();
    FirstIsRead(confirming);
    LeadsBefore(CLICKED_TWICE, 1, confirming, BOTH_CLICKS, 0, DOUBLE_BOOKED);
    FirstIsRead(RESERVED);
    LeadsBefore(CLICKED_TWICE, 0, RESERVED, confirming, 0, DOUBLE_BOOKED);
    assert CLICKED_TWICE[0..] == CLICKED_TWICE;
  }

  // ---------- A sweep that comes late ----------

  /**
    * A day later the reservation has run out. The host opens the confirm link while a sweep that read the booking as
    * expired is on its way, and both write. A second guest takes the slot that the sweep gave away and is confirmed.
    */
  const SWEPT_LATE := [
    Moment(TTL, ReadForConfirm("a")),
    Moment(TTL, ReadForSweep(TTL)),
    Moment(TTL, Perform(0)),
    Moment(TTL, Perform(0)),
    Moment(TTL, Create(HalfHour("b", TTL))),
    Moment(TTL, ReadForConfirm("b")),
    Moment(TTL, Perform(0))]

  const SWEPT_ROW := FIRST.(status := Cancelled)
  const BOTH_IN_FLIGHT := World(Rows([FIRST]), [ConfirmWrite(0), CancelWrite([0])], {}, [])
  const TOLD_YES := World(Rows([FIRST.(status := Confirmed)]), [CancelWrite([0])], {}, [Notice(0, Confirmed)])
  const TOLD_BOTH := World(Rows([SWEPT_ROW]), [], {}, [Notice(0, Confirmed), Notice(0, Cancelled)])
  const RESERVED_AGAIN := TOLD_BOTH.(tables := Rows([SWEPT_ROW, HalfHour("b", TTL)]))
  const GIVEN_TWICE :=
    World(Rows([SWEPT_ROW, HalfHour("b", TTL).(status := Confirmed)]), [], {}, TOLD_BOTH.sent + [Notice(1, Confirmed)])

  lemma ConfirmLands()
    ensures Exec(BOTH_IN_FLIGHT, Perform(0)) == TOLD_YES
  {
    assert Exec(BOTH_IN_FLIGHT, Perform(0)).tables.bookings == TOLD_YES.tables.bookings;
  }

  lemma SweepLands()
    ensures Exec(TOLD_YES, Perform(0)) == TOLD_BOTH
  {
    assert Exec(TOLD_YES, Perform(0)).tables.bookings == [SWEPT_ROW];
  }

  lemma SecondConfirmReads()
    ensures Exec(RESERVED_AGAIN, ReadForConfirm("b")) == RESERVED_AGAIN.(inFlight := [ConfirmWrite(1)])
  {
  }

  lemma SecondConfirmLands()
    ensures Exec(RESERVED_AGAIN.(inFlight := [ConfirmWrite(1)]), Perform(0)) == GIVEN_TWICE
  {
    assert Exec(RESERVED_AGAIN.(inFlight := [ConfirmWrite(1)]), Perform(0)).tables.bookings ==
           GIVEN_TWICE.tables.bookings;
  }

  lemma SecondIsConfirmed()
    ensures Leads(RESERVED_AGAIN, SWEPT_LATE[5..], TTL, GIVEN_TWICE)
  {
    var confirming := RESERVED_AGAIN.(inFlight := [ConfirmWrite(1)]);
    SecondConfirmLands();
    LeadsBefore(SWEPT_LATE, 6, confirming, GIVEN_TWICE, TTL, GIVEN_TWICE);
    SecondConfirmReads();
    LeadsBefore(SWEPT_LATE, 5, RESERVED_AGAIN, confirming, TTL, GIVEN_TWICE);
  }

  lemma SecondIsAsked()
    ensures Leads(TOLD_BOTH, SWEPT_LATE[4..], TTL, GIVEN_TWICE)
  {
    SecondIsConfirmed();
    SecondGuestAsks(TOLD_BOTH, Cancelled, TTL);
    LeadsBefore(SWEPT_LATE, 4, TOLD_BOTH, RESERVED_AGAIN, TTL, GIVEN_TWICE);
  }

  lemma BothLand()
    ensures Leads(BOTH_IN_FLIGHT, SWEPT_LATE[2..], TTL, GIVEN_TWICE)
  {
    SecondIsAsked();
    SweepLands();
    LeadsBefore(SWEPT_LATE, 3, TOLD_YES, TOLD_BOTH, TTL, GIVEN_TWICE);
    ConfirmLands();
    LeadsBefore(SWEPT_LATE, 2, BOTH_IN_FLIGHT, TOLD_YES, TTL, GIVEN_TWICE);
  }

  lemma SweptLateLeads()
    ensures Leads(RESERVED, SWEPT_LATE, 0, GIVEN_TWICE)
  {
    var confirming := RESERVED.(inFlight := [ConfirmWrite(0)]);
    BothLand();
    FirstIsRead(confirming);
    LeadsBefore(SWEPT_LATE, 1, confirming, BOTH_IN_FLIGHT, TTL, GIVEN_TWICE);
    FirstIsRead(RESERVED);
    LeadsBefore(SWEPT_LATE, 0, RESERVED, confirming, 0, GIVEN_TWICE);
    assert SWEPT_LATE[0..] == SWEPT_LATE;
  }

  // ---------- What fails in them ----------

  lemma FreshIsSound()
    ensures Known(FRESH.tables) && LogKeepsUp(FRESH) && OneOutcomeTold(FRESH) && Sound(FRESH)
  {
  }

  /** Whoever is told two outcomes had a decision that was not permanent. */
  lemma TwoOutcomesTold(run: seq<Stmt>, i: nat, a: Status, b: Status)
    requires a != b && Notice(i, a) in ExecAll(FRESH, run).sent && Notice(i, b) in ExecAll(FRESH, run).sent
    ensures !DecisionsArePermanent(FRESH, run)
  {
    FreshIsSound();
    OneOutcomeToldExactly(FRESH, run);
    DecisionsArePermanentExactly(FRESH, run);
  }

  /**
    * The documented invariant does not survive interleaving: a run that the program can make from empty tables
    * double-books a host, and a decision is changed in it.
    */
  lemma InterleavingCanDoubleBook()
    ensures Leads(FRESH, SETUP + CLICKED_TWICE, 0, DOUBLE_BOOKED)
    ensures Clash(DOUBLE_BOOKED.tables, 0, 1)
    ensures !DecisionsArePermanent(FRESH, Stmts(SETUP + CLICKED_TWICE))
  {
    ClickedTwiceLeads();
    FirstGuestAsks(CLICKED_TWICE, DOUBLE_BOOKED);
    LeadsToEnd(FRESH, SETUP + CLICKED_TWICE, 0, DOUBLE_BOOKED);
    assert DOUBLE_BOOKED.sent[0] == Notice(0, Rejected) && DOUBLE_BOOKED.sent[1] == Notice(0, Confirmed);
    TwoOutcomesTold(Stmts(SETUP + CLICKED_TWICE), 0, Rejected, Confirmed);
  }

  lemma {:induction false} NothingRaisedIsHarmless(w: World, stmts: seq<Stmt>)
    requires ExecAll(w, stmts).raised == {}
    ensures w.raised == {} && Harmless(w, stmts)
    decreases |stmts|
  {
    if stmts != [] {
      NothingRaisedIsHarmless(Exec(w, stmts[0]), stmts[1..]);
    }
  }

  /** Both guests were told yes, and one of them no. */
  lemma BothWerePromised()
    ensures Promised(GIVEN_TWICE, 0) && Promised(GIVEN_TWICE, 1) && Meet(GIVEN_TWICE.tables, 0, 1)
    ensures Notice(0, Cancelled) in GIVEN_TWICE.sent
  {
    var sent := GIVEN_TWICE.sent;
    assert sent[0] == Notice(0, Confirmed) && sent[1] == Notice(0, Cancelled) && sent[2] == Notice(1, Confirmed);
  }

  /**
    * In another run that the program can make, a late sweep takes a confirmed booking away and the slot is given to a
    * second guest, who is confirmed too. No two live rows ever overlap and no row is raised, so only the notices show
    * it.
    */
  lemma LateSweepConfirmsTwice()
    ensures Leads(FRESH, SETUP + SWEPT_LATE, 0, GIVEN_TWICE)
    ensures Promised(GIVEN_TWICE, 0) && Promised(GIVEN_TWICE, 1) && Meet(GIVEN_TWICE.tables, 0, 1)
    ensures var run := Stmts(SETUP + SWEPT_LATE);
            && Harmless(FRESH, run) && NeverDoubleBooked(FRESH, run) && GIVEN_TWICE.raised == {}
            && !DecisionsArePermanent(FRESH, run)
  {
    var run := Stmts(SETUP + SWEPT_LATE);
    SweptLateLeads();
    FirstGuestAsks(SWEPT_LATE, GIVEN_TWICE);
    LeadsToEnd(FRESH, SETUP + SWEPT_LATE, 0, GIVEN_TWICE);
    BothWerePromised();
    NothingRaisedIsHarmless(FRESH, run);
    FreshIsSound();
    RunIsSafeExactly(FRESH, run);
    TwoOutcomesTold(run, 0, Confirmed, Cancelled);
  }
}
