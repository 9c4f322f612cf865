/**
  * Filling the calendar cache: syncPath, upsertVEVENT, expandAndUpsertRRULE and SyncCalendar of
  * internal/calendar/caldav.go. What the server delivers and what the libraries parse and expand comes in as values.
  */
module Sync {
  import opened Entities
  import opened Schema
  import opened Sequences
  import opened Interleaving
  import opened Slots
  import opened Store
  import opened Public

  /** An instant of a recurrence set and its text, as in 20060102T150405Z. */
  datatype Occurrence = Occurrence(stamp: string, at: int)

  /**
    * A child component of an iCalendar object. Times are None when absent, unreadable or zero; occurrences, those
    * inside the sync window, are None when the recurrence rule is unreadable.
    */
  datatype Child = Child(
    isEvent: bool, transparent: bool, uid: Option<string>, recurrenceId: Option<string>, hasRule: bool,
    dtStart: Option<int>, dtEnd: Option<int>, occurrences: Option<seq<Occurrence>>, summary: string)

  /** None stands for an object without data. */
  type Objects = seq<Option<seq<Child>>>

  function EventEnd(c: Child): int
    requires c.dtStart.Some?
  {
    if c.dtEnd.Some? then c.dtEnd.value else c.dtStart.value + HOUR
  }

  predicate Skipped(c: Child) {
    c.uid.None? || c.uid.value == "" || c.dtStart.None?
  }

  /** An opaque event with a UID and a start. */
  predicate Counts(c: Child) {
    && c.isEvent && !c.transparent
    && c.uid.Some? && c.uid.value != "" && c.dtStart.Some?
  }

  function SingleKey(calendarId: int, c: Child): EventKey
    requires c.uid.Some?
  {
    EventKey(calendarId,
             if c.recurrenceId.Some? && c.recurrenceId.value != "" then c.uid.value + "/" + c.recurrenceId.value
             else c.uid.value)
  }

  function SingleRows(calendarId: int, c: Child): seq<EventRow> {
    if Skipped(c) then []
    else [EventRow(SingleKey(calendarId, c), CalendarEvent(c.dtStart.value, EventEnd(c), c.summary))]
  }

  function OccurrenceRow(calendarId: int, c: Child, o: Occurrence): EventRow
    requires !Skipped(c)
  {
    EventRow(EventKey(calendarId, c.uid.value + "~" + o.stamp),
             CalendarEvent(o.at, o.at + (EventEnd(c) - c.dtStart.value), c.summary))
  }

  function RecurringRows(calendarId: int, c: Child): seq<EventRow> {
    if Skipped(c) then []
    else if c.occurrences.None? then
      [EventRow(EventKey(calendarId, c.uid.value), CalendarEvent(c.dtStart.value, EventEnd(c), c.summary))]
    else
      var occs := c.occurrences.value;
      seq(|occs|, i requires 0 <= i < |occs| => OccurrenceRow(calendarId, c, occs[i]))
  }

  function ComponentRows(calendarId: int, c: Child): seq<EventRow> {
    if !c.isEvent || c.transparent then []
    else if c.hasRule && c.recurrenceId.None? then RecurringRows(calendarId, c)
    else SingleRows(calendarId, c)
  }

  function RowsOf(calendarId: int): Child -> seq<EventRow> {
    c => ComponentRows(calendarId, c)
  }

  function ComponentsRows(calendarId: int, cs: seq<Child>): seq<EventRow> {
    FlatMap(cs, RowsOf(calendarId))
  }

  function ObjectRows(calendarId: int, data: Option<seq<Child>>): seq<EventRow> {
    if data.None? then [] else ComponentsRows(calendarId, data.value)
  }

  /** Everything that a sync of these objects delivers, in the order of the upserts. */
  function ObjectsRows(calendarId: int, objects: Objects): seq<EventRow> {
    if objects == [] then []
    else
      ObjectsRows(calendarId, objects[..|objects| - 1]) + ObjectRows(calendarId, objects[|objects| - 1])
  }

  lemma UpsertAllOne(events: map<EventKey, CalendarEvent>, row: EventRow)
    ensures UpsertAll(events, [row]) == events[row.key := row.event]
  {
  }

  /** internal/calendar/caldav.go:227-254 */
  method UpsertVEVENT(db: Database, calendarId: int, c: Child)
    modifies db`events
    ensures db.events == UpsertAll(old(db.events), SingleRows(calendarId, c))
  {
    if c.uid.None? || c.uid.value == "" {
      return;
    }
    var uid := c.uid.value;
    if c.recurrenceId.Some? && c.recurrenceId.value != "" {
      uid := uid + "/" + c.recurrenceId.value;
    }
    if c.dtStart.None? {
      return;
    }
    UpsertAllOne(db.events,
                 EventRow(EventKey(calendarId, uid), CalendarEvent(c.dtStart.value, EventEnd(c), c.summary)));
    db.UpsertCalendarEvent(EventKey(calendarId, uid), CalendarEvent(c.dtStart.value, EventEnd(c), c.summary));
  }

  /** Some event of the calendar takes place when the occurrence does, as long as the master or for an hour. */
  ghost predicate HoldsOccurrence(events: map<EventKey, CalendarEvent>, calendarId: int, c: Child, o: Occurrence)
    requires c.dtStart.Some?
  {
    exists k :: k in events && k.calendarId == calendarId && events[k].startAt == o.at
                && events[k].endAt == o.at + if c.dtEnd.Some? then c.dtEnd.value - c.dtStart.value else HOUR
  }

  ghost predicate DistinctKeys(rows: seq<EventRow>) {
    forall i, j :: 0 <= i < j < |rows| ==> rows[i].key != rows[j].key
  }

  lemma {:induction false} DistinctRowIsStored(events: map<EventKey, CalendarEvent>, rows: seq<EventRow>, i: nat)
    requires DistinctKeys(rows) && i < |rows|
    ensures rows[i].key in UpsertAll(events, rows) && UpsertAll(events, rows)[rows[i].key] == rows[i].event
  {
    if i < |rows| - 1 {
      DistinctRowIsStored(events, rows[..|rows| - 1], i);
    }
  }

  ghost predicate StampsDiffer(c: Child) {
    c.occurrences.Some? ==>
      forall i, j :: 0 <= i < j < |c.occurrences.value| ==> c.occurrences.value[i].stamp != c.occurrences.value[j].stamp
  }

  lemma SuffixesDiffer(uid: string, a: string, b: string)
    requires a != b
    ensures uid + a != uid + b
  {
    assert (uid + a)[|uid|..] == a && (uid + b)[|uid|..] == b;
  }

  lemma OccurrenceKeysDiffer(calendarId: int, c: Child)
    requires !Skipped(c) && c.occurrences.Some? && StampsDiffer(c)
    ensures DistinctKeys(RecurringRows(calendarId, c))
  {
    var rows := RecurringRows(calendarId, c);
    forall i, j | 0 <= i < j < |rows| ensures rows[i].key != rows[j].key {
      SuffixesDiffer(c.uid.value + "~", c.occurrences.value[i].stamp, c.occurrences.value[j].stamp);
    }
  }

  /** No occurrence of a rule takes the row of another one. */
  lemma EveryOccurrenceIsStored(events: map<EventKey, CalendarEvent>, calendarId: int, c: Child)
    ensures !Skipped(c) && c.occurrences.Some? && StampsDiffer(c) ==>
              forall o :: o in c.occurrences.value ==>
                            HoldsOccurrence(UpsertAll(events, RecurringRows(calendarId, c)), calendarId, c, o)
  {
    if !Skipped(c) && c.occurrences.Some? && StampsDiffer(c) {
      OccurrenceKeysDiffer(calendarId, c);
      forall o | o in c.occurrences.value
        ensures HoldsOccurrence(UpsertAll(events, RecurringRows(calendarId, c)), calendarId, c, o)
      {
        var i :| 0 <= i < |c.occurrences.value| && c.occurrences.value[i] == o;
        DistinctRowIsStored(events, RecurringRows(calendarId, c), i);
      }
    }
  }

  /** internal/calendar/caldav.go:256-295 */
  method ExpandAndUpsertRRULE(db: Database, calendarId: int, c: Child)
    modifies db`events
    ensures db.events == UpsertAll(old(db.events), RecurringRows(calendarId, c))
    ensures !Skipped(c) && c.occurrences.Some? && StampsDiffer(c) ==>
              forall o :: o in c.occurrences.value ==> HoldsOccurrence(db.events, calendarId, c, o)
  {
    EveryOccurrenceIsStored(db.events, calendarId, c);
    if c.uid.None? || c.uid.value == "" {
      return;
    }
    if c.dtStart.None? {
      return;
    }
    var startAt, endAt := c.dtStart.value, EventEnd(c);
    var duration := endAt - startAt;
    if c.occurrences.None? {
      UpsertAllOne(db.events, EventRow(EventKey(calendarId, c.uid.value), CalendarEvent(startAt, endAt, c.summary)));
      db.UpsertCalendarEvent(EventKey(calendarId, c.uid.value), CalendarEvent(startAt, endAt, c.summary));
      return;
    }
    var rows := [];
    for i := 0 to |c.occurrences.value|
      invariant rows == RecurringRows(calendarId, c)[..i]
    {
      var occ := c.occurrences.value[i];
      rows := rows + [EventRow(EventKey(calendarId, c.uid.value + "~" + occ.stamp),
                               CalendarEvent(occ.at, occ.at + duration, c.summary))];
    }
    assert rows == RecurringRows(calendarId, c);
    db.BulkUpsertCalendarEvents(rows);
  }

  lemma {:induction false} UpsertAllAppend(events: map<EventKey, CalendarEvent>, a: seq<EventRow>, b: seq<EventRow>)
    ensures UpsertAll(events, a + b) == UpsertAll(UpsertAll(events, a), b)
    decreases |b|
  {
    if b == [] {
      assert a + b == a;
    } else {
      assert (a + b)[..|a + b| - 1] == a + b[..|b| - 1];
      UpsertAllAppend(events, a, b[..|b| - 1]);
    }
  }

  method SyncComponents(db: Database, calendarId: int, children: seq<Child>)
    modifies db`events
    ensures db.events == UpsertAll(old(db.events), ComponentsRows(calendarId, children))
  {
    for i := 0 to |children|
      invariant db.events == UpsertAll(old(db.events), ComponentsRows(calendarId, children[..i]))
    {
      var c := children[i];
      assert children[..i + 1][..i] == children[..i];
      UpsertAllAppend(old(db.events), ComponentsRows(calendarId, children[..i]), ComponentRows(calendarId, c));
      if !c.isEvent {
        continue;
      }
      if c.transparent {
        continue;
      }
      if c.hasRule && c.recurrenceId.None? {
        ExpandAndUpsertRRULE(db, calendarId, c);
      } else {
        UpsertVEVENT(db, calendarId, c);
      }
    }
    assert children[..|children|] == children;
  }

  lemma UpsertNextObject(events: map<EventKey, CalendarEvent>, calendarId: int, objects: Objects, i: nat)
    requires i < |objects|
    ensures UpsertAll(events, ObjectsRows(calendarId, objects[..i + 1])) ==
            UpsertAll(UpsertAll(events, ObjectsRows(calendarId, objects[..i])), ObjectRows(calendarId, objects[i]))
  {
    assert objects[..i + 1][..i] == objects[..i];
    UpsertAllAppend(events, ObjectsRows(calendarId, objects[..i]), ObjectRows(calendarId, objects[i]));
  }

  /** internal/calendar/caldav.go:158-225, after the query. */
  method SyncPath(db: Database, calendarId: int, objects: Objects)
    modifies db`events
    ensures db.events == UpsertAll(old(db.events), ObjectsRows(calendarId, objects))
  {
    for i := 0 to |objects|
      invariant db.events == UpsertAll(old(db.events), ObjectsRows(calendarId, objects[..i]))
    {
      UpsertNextObject(old(db.events), calendarId, objects, i);
      if objects[i].None? {
        continue;
      }
      SyncComponents(db, calendarId, objects[i].value);
    }
    assert objects[..|objects|] == objects;
  }

  /** What the queries of a sync return: a failed query is None. */
  datatype Server = Server(discovered: Option<seq<Option<Objects>>>, direct: Option<Objects>)

  function PathsRows(calendarId: int, paths: seq<Option<Objects>>): seq<EventRow> {
    if paths == [] || paths[0].None? then []
    else ObjectsRows(calendarId, paths[0].value) + PathsRows(calendarId, paths[1..])
  }

  predicate AllAnswered(paths: seq<Option<Objects>>) {
    forall i :: 0 <= i < |paths| ==> paths[i].Some?
  }

  predicate Discovers(server: Server) {
    server.discovered.Some? && server.discovered.value != []
  }

  function SyncRows(calendarId: int, server: Server): seq<EventRow> {
    if Discovers(server) then PathsRows(calendarId, server.discovered.value)
    else if server.direct.Some? then ObjectsRows(calendarId, server.direct.value)
    else []
  }

  predicate SyncSucceeds(server: Server) {
    if Discovers(server) then AllAnswered(server.discovered.value) else server.direct.Some?
  }

  /** Only a sync that went through discovery and every path purges. */
  function SyncedEvents(events: map<EventKey, CalendarEvent>, calendarId: int, server: Server,
                        from: int): map<EventKey, CalendarEvent> {
    var filled := UpsertAll(events, SyncRows(calendarId, server));
    if Discovers(server) && SyncSucceeds(server) then Purged(filled, calendarId, from) else filled
  }

  /** internal/calendar/caldav.go:70-75 */
  method SyncPaths(db: Database, calendarId: int, paths: seq<Option<Objects>>) returns (ok: bool)
    modifies db`events
    ensures ok == AllAnswered(paths)
    ensures db.events == UpsertAll(old(db.events), PathsRows(calendarId, paths))
  {
    ghost var goal := UpsertAll(db.events, PathsRows(calendarId, paths));
    for i := 0 to |paths|
      invariant forall j :: 0 <= j < i ==> paths[j].Some?
      invariant UpsertAll(db.events, PathsRows(calendarId, paths[i..])) == goal
    {
      if paths[i].None? {
        return false;
      }
      assert paths[i..][1..] == paths[i + 1..];
      UpsertAllAppend(db.events, ObjectsRows(calendarId, paths[i].value), PathsRows(calendarId, paths[i + 1..]));
      SyncPath(db, calendarId, paths[i].value);
    }
    return true;
  }

  /** internal/calendar/caldav.go:37-79 */
  method SyncCalendar(db: Database, calendarId: int, server: Server, from: int) returns (ok: bool)
    modifies db`events
    ensures ok == SyncSucceeds(server)
    ensures db.events == SyncedEvents(old(db.events), calendarId, server, from)
  {
    if server.discovered.None? || |server.discovered.value| == 0 {
      if server.direct.None? {
        return false;
      }
      SyncPath(db, calendarId, server.direct.value);
      return true;
    }
    ok := SyncPaths(db, calendarId, server.discovered.value);
    if ok {
      db.PurgeOldCalendarEvents(calendarId, from);
    }
  }

  // ---------- What a sync means ----------

  /** The event delivered last under a key. */
  function LastUnder(rows: seq<EventRow>, k: EventKey): Option<CalendarEvent> {
    if rows == [] then None
    else if rows[|rows| - 1].key == k then Some(rows[|rows| - 1].event)
    else LastUnder(rows[..|rows| - 1], k)
  }

  lemma {:induction false} UpsertAllByKey(events: map<EventKey, CalendarEvent>, rows: seq<EventRow>, k: EventKey)
    ensures var m := UpsertAll(events, rows);
            && (k in m <==> LastUnder(rows, k).Some? || k in events)
            && (k in m ==> m[k] == if LastUnder(rows, k).Some? then LastUnder(rows, k).value else events[k])
  {
    if rows != [] {
      UpsertAllByKey(events, rows[..|rows| - 1], k);
    }
  }

  lemma {:induction false} ComponentsStay(calendarId: int, cs: seq<Child>)
    ensures forall r :: r in ComponentsRows(calendarId, cs) ==> r.key.calendarId == calendarId
  {
    if cs != [] {
      ComponentsStay(calendarId, cs[..|cs| - 1]);
    }
  }

  lemma {:induction false} ObjectsStay(calendarId: int, objects: Objects)
    ensures forall r :: r in ObjectsRows(calendarId, objects) ==> r.key.calendarId == calendarId
  {
    if objects != [] {
      ObjectsStay(calendarId, objects[..|objects| - 1]);
      if objects[|objects| - 1].Some? {
        ComponentsStay(calendarId, objects[|objects| - 1].value);
      }
    }
  }

  lemma {:induction false} PathsStay(calendarId: int, paths: seq<Option<Objects>>)
    ensures forall r :: r in PathsRows(calendarId, paths) ==> r.key.calendarId == calendarId
  {
    if paths != [] && paths[0].Some? {
      ObjectsStay(calendarId, paths[0].value);
      PathsStay(calendarId, paths[1..]);
    }
  }

  lemma {:induction false} RowsStayInCalendar(calendarId: int, server: Server)
    ensures forall r :: r in SyncRows(calendarId, server) ==> r.key.calendarId == calendarId
  {
    if Discovers(server) {
      PathsStay(calendarId, server.discovered.value);
    } else if server.direct.Some? {
      ObjectsStay(calendarId, server.direct.value);
    }
  }

  lemma {:induction false} LastUnderIn(rows: seq<EventRow>, k: EventKey)
    ensures LastUnder(rows, k).Some? ==> EventRow(k, LastUnder(rows, k).value) in rows
  {
    if rows != [] && rows[|rows| - 1].key != k {
      LastUnderIn(rows[..|rows| - 1], k);
    }
  }

  /** A sync leaves the rows of every other calendar as they are. */
  lemma OtherCalendarsUntouched(events: map<EventKey, CalendarEvent>, calendarId: int, server: Server, from: int,
                                k: EventKey)
    requires k.calendarId != calendarId
    ensures var m := SyncedEvents(events, calendarId, server, from);
            (k in m <==> k in events) && (k in m ==> m[k] == events[k])
  {
    var rows := SyncRows(calendarId, server);
    RowsStayInCalendar(calendarId, server);
    LastUnderIn(rows, k);
    UpsertAllByKey(events, rows, k);
  }

  /** The same sync again changes nothing, whether keys repeat or not. */
  lemma SyncTwiceIsSyncOnce(events: map<EventKey, CalendarEvent>, calendarId: int, server: Server, from: int)
    ensures var once := SyncedEvents(events, calendarId, server, from);
            SyncedEvents(once, calendarId, server, from) == once
  {
    var rows := SyncRows(calendarId, server);
    var once := SyncedEvents(events, calendarId, server, from);
    var twice := SyncedEvents(once, calendarId, server, from);
    forall k ensures (k in twice <==> k in once) && (k in once ==> twice[k] == once[k]) {
      UpsertAllByKey(events, rows, k);
      UpsertAllByKey(once, rows, k);
    }
  }

  lemma {:induction false} RowHasLast(rows: seq<EventRow>, row: EventRow)
    requires row in rows
    ensures LastUnder(rows, row.key).Some?
  {
    if rows[|rows| - 1].key != row.key {
      assert row in rows[..|rows| - 1];
      RowHasLast(rows[..|rows| - 1], row);
    }
  }

  /** What the cache holds of the upserted rows after a sync, row by row. Only a completed discovery sync purges. */
  lemma StoredExactly(events: map<EventKey, CalendarEvent>, calendarId: int, server: Server, from: int, row: EventRow)
    requires row in SyncRows(calendarId, server)
    ensures var m := SyncedEvents(events, calendarId, server, from);
            (row.key in m && m[row.key] == row.event) <==>
            && LastUnder(SyncRows(calendarId, server), row.key) == Some(row.event)
            && (Discovers(server) && SyncSucceeds(server) ==> row.event.endAt >= from)
  {
    var rows := SyncRows(calendarId, server);
    RowsStayInCalendar(calendarId, server);
    UpsertAllByKey(events, rows, row.key);
    RowHasLast(rows, row);
  }

  /** The whole cache after a sync, key by key: what vanished from the server stays until a purge. */
  lemma CacheExactly(events: map<EventKey, CalendarEvent>, calendarId: int, server: Server, from: int, k: EventKey)
    ensures var m, last := SyncedEvents(events, calendarId, server, from), LastUnder(SyncRows(calendarId, server), k);
            var purges := Discovers(server) && SyncSucceeds(server) && k.calendarId == calendarId;
            && (k in m <==>
                || (last.Some? && !(purges && last.value.endAt < from))
                || (last.None? && k in events && !(purges && events[k].endAt < from)))
            && (k in m ==> m[k] == if last.Some? then last.value else events[k])
  {
    UpsertAllByKey(events, SyncRows(calendarId, server), k);
  }

  // ---------- The statements of a sync among others ----------

  function UpsertStatements(rows: seq<EventRow>): seq<Stmt> {
    seq(|rows|, i requires 0 <= i < |rows| => Administer(UpsertEvent(rows[i].key, rows[i].event)))
  }

  /** What a sync sends to the database, statement by statement. */
  function SyncStatements(calendarId: int, server: Server, from: int): seq<Stmt> {
    UpsertStatements(SyncRows(calendarId, server))
    + if Discovers(server) && SyncSucceeds(server) then [Administer(PurgeEvents(calendarId, from))] else []
  }

  /** What the database holds after a sync that nothing interrupts. */
  function Synced(w: World, calendarId: int, server: Server, from: int): World {
    w.(tables := w.tables.(events := SyncedEvents(w.tables.events, calendarId, server, from)))
  }

  lemma ExecAllOne(w: World, s: Stmt)
    ensures ExecAll(w, [s]) == Exec(w, s)
  {
    assert [s][1..] == [];
  }

  lemma {:induction false} UpsertStatementsRun(w: World, rows: seq<EventRow>)
    ensures ExecAll(w, UpsertStatements(rows)) == w.(tables := w.tables.(events := UpsertAll(w.tables.events, rows)))
    decreases |rows|
  {
    if rows != [] {
      var n := |rows| - 1;
      var last := Administer(UpsertEvent(rows[n].key, rows[n].event));
      assert UpsertStatements(rows) == UpsertStatements(rows[..n]) + [last];
      UpsertStatementsRun(w, rows[..n]);
      ExecAllAppend(w, UpsertStatements(rows[..n]), [last]);
      ExecAllOne(ExecAll(w, UpsertStatements(rows[..n])), last);
    }
  }

  /** The sync as one step is the run of its statements with nothing in between. */
  lemma SyncIsSerialRun(w: World, calendarId: int, server: Server, from: int)
    ensures ExecAll(w, SyncStatements(calendarId, server, from)) == Synced(w, calendarId, server, from)
  {
    var rows := SyncRows(calendarId, server);
    UpsertStatementsRun(w, rows);
    if Discovers(server) && SyncSucceeds(server) {
      var purge := Administer(PurgeEvents(calendarId, from));
      ExecAllAppend(w, UpsertStatements(rows), [purge]);
      ExecAllOne(ExecAll(w, UpsertStatements(rows)), purge);
    } else {
      assert SyncStatements(calendarId, server, from) == UpsertStatements(rows);
    }
  }

  /**
    * A statement that neither deletes the calendar, nor purges from it what ends at now or later, nor stores anything
    * but the delivered row under the key of one.
    */
  predicate Spares(s: Stmt, calendarId: int, rows: seq<EventRow>, now: int) {
    s.Administer? ==>
      match s.a
      case UpsertEvent(key, event) => forall r :: r in rows && r.key == key ==> r.event == event
      case PurgeEvents(id, before) => id != calendarId || before <= now
      case DeleteCalendar(id, _) => id != calendarId
      case _ => true
  }

  predicate Owns(t: Tables, userId: int, calendarId: int) {
    calendarId in t.calendars && t.calendars[calendarId] == userId
  }

  predicate HasEvent(t: Tables, userId: int, row: EventRow) {
    row.key in t.events && t.events[row.key] == row.event && Owns(t, userId, row.key.calendarId)
  }

  lemma SparedRowStays(w: World, s: Stmt, userId: int, rows: seq<EventRow>, row: EventRow, now: int)
    requires row in rows && now <= row.event.endAt && Spares(s, row.key.calendarId, rows, now)
    requires Owns(w.tables, userId, row.key.calendarId)
    ensures Owns(Exec(w, s).tables, userId, row.key.calendarId)
    ensures HasEvent(w.tables, userId, row) ==> HasEvent(Exec(w, s).tables, userId, row)
  {
  }

  /** A row that is there, or is going to be upserted, is there at the end. */
  lemma {:induction false} SparedRowsStay(w: World, run: seq<Stmt>, userId: int, rows: seq<EventRow>, row: EventRow,
                                          now: int)
    requires row in rows && now <= row.event.endAt && Owns(w.tables, userId, row.key.calendarId)
    requires forall s :: s in run ==> Spares(s, row.key.calendarId, rows, now)
    requires HasEvent(w.tables, userId, row) || Administer(UpsertEvent(row.key, row.event)) in run
    ensures HasEvent(ExecAll(w, run).tables, userId, row)
    decreases |run|
  {
    if run != [] {
      SparedRowStays(w, run[0], userId, rows, row, now);
      SparedRowsStay(Exec(w, run[0]), run[1..], userId, rows, row, now);
    }
  }

  lemma OwnStatementsSpare(calendarId: int, server: Server, from: int, s: Stmt, now: int)
    requires DistinctKeys(SyncRows(calendarId, server)) && from <= now && s in SyncStatements(calendarId, server, from)
    ensures Spares(s, calendarId, SyncRows(calendarId, server), now)
  {
  }

  /** A sync whose statements are spread over a run, in any order and among others that spare its rows. */
  ghost predicate SyncedDuring(run: seq<Stmt>, calendarId: int, server: Server, from: int, now: int) {
    && (forall s :: s in SyncStatements(calendarId, server, from) ==> s in run)
    && (forall s :: s in run ==>
                      || s in SyncStatements(calendarId, server, from)
                      || Spares(s, calendarId, SyncRows(calendarId, server), now))
  }

  lemma DeliveredRowIsStored(w: World, run: seq<Stmt>, calendarId: int, userId: int, server: Server, from: int,
                             row: EventRow, now: int)
    requires Owns(w.tables, userId, calendarId) && from <= now <= row.event.endAt
    requires DistinctKeys(SyncRows(calendarId, server)) && row in SyncRows(calendarId, server)
    requires SyncedDuring(run, calendarId, server, from, now)
    ensures HasEvent(ExecAll(w, run).tables, userId, row)
  {
    var rows := SyncRows(calendarId, server);
    RowsStayInCalendar(calendarId, server);
    forall s | s in run ensures Spares(s, calendarId, rows, now) {
      if s in SyncStatements(calendarId, server, from) {
        OwnStatementsSpare(calendarId, server, from, s, now);
      }
    }
    var i :| 0 <= i < |rows| && rows[i] == row;
    assert SyncStatements(calendarId, server, from)[i] == Administer(UpsertEvent(row.key, row.event));
    SparedRowsStay(w, run, userId, rows, row, now);
  }

  lemma StoredEventBlocksSlots(rules: Tables, t: Tables, bookings: Tables, userId: int, row: EventRow, q: Query,
                               s: Slot)
    requires HasEvent(t, userId, row)
    requires OfferedFrom(rules, t, bookings, userId, q, s) && s.end <= WindowEnd(q.now, q.bookingWindowDays)
    ensures !Overlaps(s.start, s.end, row.event.startAt, row.event.endAt)
  {
    assert row.event in EventsOf(t, userId);
  }

  // ---------- From components to rows ----------

  /**
    * A component keeps its owner busy from startAt to endAt: an opaque event, once or at each occurrence of its rule.
    */
  ghost predicate BusyTime(c: Child, startAt: int, endAt: int) {
    && Counts(c)
    && endAt - startAt == (if c.dtEnd.Some? then c.dtEnd.value - c.dtStart.value else HOUR)
    && if c.hasRule && c.recurrenceId.None? && c.occurrences.Some?
       then exists o :: o in c.occurrences.value && o.at == startAt
       else startAt == c.dtStart.value
  }

  ghost predicate BusyInObjects(objects: Objects, startAt: int, endAt: int) {
    exists i, c :: 0 <= i < |objects| && objects[i].Some? && c in objects[i].value && BusyTime(c, startAt, endAt)
  }

  ghost predicate BusyInPaths(paths: seq<Option<Objects>>, startAt: int, endAt: int) {
    exists i :: 0 <= i < |paths| && paths[i].Some? && BusyInObjects(paths[i].value, startAt, endAt)
  }

  /** Something that the server delivers keeps the owner busy at that time. */
  ghost predicate BusyOnServer(server: Server, startAt: int, endAt: int) {
    if Discovers(server) then BusyInPaths(server.discovered.value, startAt, endAt)
    else server.direct.Some? && BusyInObjects(server.direct.value, startAt, endAt)
  }

  ghost predicate HasRow(rows: seq<EventRow>, startAt: int, endAt: int) {
    exists r :: r in rows && r.event.startAt == startAt && r.event.endAt == endAt
  }

  lemma HasRowAppend(a: seq<EventRow>, b: seq<EventRow>, startAt: int, endAt: int)
    ensures HasRow(a + b, startAt, endAt) <==> HasRow(a, startAt, endAt) || HasRow(b, startAt, endAt)
  {
    assert forall r :: r in a + b <==> r in a || r in b;
  }

  lemma ComponentRowsAreBusyTimes(calendarId: int, c: Child, startAt: int, endAt: int)
    ensures HasRow(ComponentRows(calendarId, c), startAt, endAt) <==> BusyTime(c, startAt, endAt)
  {
    var rows := ComponentRows(calendarId, c);
    if c.hasRule && c.recurrenceId.None? && c.occurrences.Some? && BusyTime(c, startAt, endAt) {
      var i :| 0 <= i < |c.occurrences.value| && c.occurrences.value[i].at == startAt;
      assert rows[i] in rows;
    } else if BusyTime(c, startAt, endAt) {
      assert rows[0] in rows;
    }
  }

  lemma {:induction false} ComponentsRowsAreBusyTimes(calendarId: int, cs: seq<Child>, startAt: int, endAt: int)
    ensures HasRow(ComponentsRows(calendarId, cs), startAt, endAt) <==>
            exists c :: c in cs && BusyTime(c, startAt, endAt)
  {
    if cs != [] {
      var front, last := cs[..|cs| - 1], cs[|cs| - 1];
      ComponentsRowsAreBusyTimes(calendarId, front, startAt, endAt);
      ComponentRowsAreBusyTimes(calendarId, last, startAt, endAt);
      HasRowAppend(ComponentsRows(calendarId, front), ComponentRows(calendarId, last), startAt, endAt);
      assert forall c :: c in cs <==> c in front || c == last;
    }
  }

  lemma BusyInObjectsSnoc(objects: Objects, startAt: int, endAt: int)
    requires objects != []
    ensures var n := |objects| - 1;
            BusyInObjects(objects, startAt, endAt) <==>
            || BusyInObjects(objects[..n], startAt, endAt)
            || (objects[n].Some? && exists c :: c in objects[n].value && BusyTime(c, startAt, endAt))
  {
    var n := |objects| - 1;
    if BusyInObjects(objects[..n], startAt, endAt) {
      var i, c :| 0 <= i < n && objects[..n][i].Some? && c in objects[..n][i].value && BusyTime(c, startAt, endAt);
      assert objects[i] == objects[..n][i];
    }
    if BusyInObjects(objects, startAt, endAt) {
      var i, c :| 0 <= i < |objects| && objects[i].Some? && c in objects[i].value && BusyTime(c, startAt, endAt);
      assert i < n ==> objects[..n][i] == objects[i];
    }
  }

  lemma {:induction false} ObjectsRowsAreBusyTimes(calendarId: int, objects: Objects, startAt: int, endAt: int)
    ensures HasRow(ObjectsRows(calendarId, objects), startAt, endAt) <==> BusyInObjects(objects, startAt, endAt)
  {
    if objects != [] {
      var n := |objects| - 1;
      ObjectsRowsAreBusyTimes(calendarId, objects[..n], startAt, endAt);
      HasRowAppend(ObjectsRows(calendarId, objects[..n]), ObjectRows(calendarId, objects[n]), startAt, endAt);
      if objects[n].Some? {
        ComponentsRowsAreBusyTimes(calendarId, objects[n].value, startAt, endAt);
      }
      BusyInObjectsSnoc(objects, startAt, endAt);
    }
  }

  lemma {:induction false} PathsRowsAreBusyTimes(calendarId: int, paths: seq<Option<Objects>>, startAt: int, endAt: int)
    requires AllAnswered(paths)
    ensures HasRow(PathsRows(calendarId, paths), startAt, endAt) <==> BusyInPaths(paths, startAt, endAt)
  {
    if paths != [] {
      var rest := paths[1..];
      PathsRowsAreBusyTimes(calendarId, rest, startAt, endAt);
      ObjectsRowsAreBusyTimes(calendarId, paths[0].value, startAt, endAt);
      HasRowAppend(ObjectsRows(calendarId, paths[0].value), PathsRows(calendarId, rest), startAt, endAt);
      if BusyInPaths(rest, startAt, endAt) {
        var i :| 0 <= i < |rest| && rest[i].Some? && BusyInObjects(rest[i].value, startAt, endAt);
        assert paths[i + 1] == rest[i];
      }
      if BusyInPaths(paths, startAt, endAt) {
        var i :| 0 <= i < |paths| && paths[i].Some? && BusyInObjects(paths[i].value, startAt, endAt);
        assert i > 0 ==> rest[i - 1] == paths[i];
      }
    }
  }

  lemma {:induction false} PathsRowsStop(calendarId: int, paths: seq<Option<Objects>>, i: nat)
    requires i < |paths| && paths[i].None? && AllAnswered(paths[..i])
    ensures PathsRows(calendarId, paths) == PathsRows(calendarId, paths[..i])
  {
    if i > 0 {
      assert paths[..i][0] == paths[0] && paths[1..][..i - 1] == paths[..i][1..];
      assert AllAnswered(paths[1..][..i - 1]);
      PathsRowsStop(calendarId, paths[1..], i - 1);
    }
  }

  /** Nothing is stored of the first path that fails and of those after it, and all of those before it. */
  lemma {:induction false} FailingPathEndsSync(calendarId: int, paths: seq<Option<Objects>>, i: nat, startAt: int,
                                               endAt: int)
    requires i < |paths| && paths[i].None? && AllAnswered(paths[..i])
    ensures HasRow(PathsRows(calendarId, paths), startAt, endAt) <==> BusyInPaths(paths[..i], startAt, endAt)
  {
    PathsRowsStop(calendarId, paths, i);
    PathsRowsAreBusyTimes(calendarId, paths[..i], startAt, endAt);
  }

  /** A successful sync upserts a row for a time exactly when something delivered keeps the owner busy then. */
  lemma SyncRowsAreBusyTimes(calendarId: int, server: Server, startAt: int, endAt: int)
    requires SyncSucceeds(server)
    ensures HasRow(SyncRows(calendarId, server), startAt, endAt) <==> BusyOnServer(server, startAt, endAt)
  {
    if Discovers(server) {
      PathsRowsAreBusyTimes(calendarId, server.discovered.value, startAt, endAt);
    } else {
      ObjectsRowsAreBusyTimes(calendarId, server.direct.value, startAt, endAt);
    }
  }

  /**
    * If the keys of a successful sync are pairwise distinct, then after any run in which all its statements were made,
    * among others that spare its rows, no slot offered that ends by the end of the booking window overlaps a time at
    * which a delivered component keeps the owner busy.
    */
  lemma DeliveredEventsBlockSlots(w: World, run: seq<Stmt>, calendarId: int, userId: int, server: Server, from: int,
                                  startAt: int, endAt: int, rules: Tables, bookings: Tables, q: Query, s: Slot)
    requires Owns(w.tables, userId, calendarId) && SyncSucceeds(server) && from <= q.now
    requires DistinctKeys(SyncRows(calendarId, server)) && BusyOnServer(server, startAt, endAt)
    requires SyncedDuring(run, calendarId, server, from, q.now)
    requires OfferedFrom(rules, ExecAll(w, run).tables, bookings, userId, q, s)
    requires s.end <= WindowEnd(q.now, q.bookingWindowDays)
    ensures !Overlaps(s.start, s.end, startAt, endAt)
  {
    SyncRowsAreBusyTimes(calendarId, server, startAt, endAt);
    var row :| row in SyncRows(calendarId, server) && row.event.startAt == startAt && row.event.endAt == endAt;
    if q.now <= endAt {
      DeliveredRowIsStored(w, run, calendarId, userId, server, from, row, q.now);
      StoredEventBlocksSlots(rules, ExecAll(w, run).tables, bookings, userId, row, q, s);
    }
  }

  // ---------- Keys that do not collide ----------

  /** The recurrence id that a component counts as having. */
  function RecId(c: Child): string {
    if c.recurrenceId.Some? then c.recurrenceId.value else ""
  }

  /** Neither of the characters that the keys add to a UID occurs in it. */
  predicate Plain(uid: string) {
    '~' !in uid && '/' !in uid
  }

  /** The text ends there or goes on with a separator. */
  predicate Tail(s: string) {
    s != [] ==> s[0] == '~' || s[0] == '/'
  }

  lemma PlainUidsDiffer(u: string, v: string, a: string, b: string)
    requires Plain(u) && Plain(v) && u != v && Tail(a) && Tail(b)
    ensures u + a != v + b
  {
    if |u| == |v| {
      assert (u + a)[..|u|] == u && (v + b)[..|v|] == v;
    } else if |u| < |v| {
      assert v[|u|] in v && (v + b)[|u|] == v[|u|];
      assert a != "" ==> (u + a)[|u|] == a[0];
    } else {
      assert u[|v|] in u && (u + a)[|v|] == u[|v|];
      assert b != "" ==> (v + b)[|v|] == b[0];
    }
  }

  /** What the key of a component's row adds to its UID. */
  ghost predicate Adds(c: Child, tail: string) {
    if RecId(c) != "" then tail == "/" + RecId(c)
    else tail == "" || exists o :: c.occurrences.Some? && o in c.occurrences.value && tail == "~" + o.stamp
  }

  /** Every row of a component is stored under its calendar, its UID and such an addition, with its summary. */
  lemma RowKeyAdds(calendarId: int, c: Child, row: EventRow) returns (tail: string)
    requires row in ComponentRows(calendarId, c)
    ensures Counts(c) && row.key == EventKey(calendarId, c.uid.value + tail) && Tail(tail) && Adds(c, tail)
    ensures row.event.summary == c.summary
  {
    var i :| 0 <= i < |ComponentRows(calendarId, c)| && ComponentRows(calendarId, c)[i] == row;
    if c.hasRule && c.recurrenceId.None? && c.occurrences.Some? {
      var o := c.occurrences.value[i];
      assert o in c.occurrences.value;
      tail := "~" + o.stamp;
      assert c.uid.value + tail == c.uid.value + "~" + o.stamp;
    } else if RecId(c) != "" {
      tail := "/" + RecId(c);
      assert c.uid.value + tail == c.uid.value + "/" + c.recurrenceId.value;
    } else {
      tail := "";
      assert c.uid.value + "" == c.uid.value;
    }
  }

  /** The rows of one component do not replace one another if the stamps of its occurrences differ. */
  lemma ComponentKeysDiffer(calendarId: int, c: Child)
    requires StampsDiffer(c)
    ensures DistinctKeys(ComponentRows(calendarId, c))
  {
    if Counts(c) && c.occurrences.Some? {
      OccurrenceKeysDiffer(calendarId, c);
    }
  }

  lemma TailsDiffer(c: Child, d: Child, a: string, b: string)
    requires Adds(c, a) && Adds(d, b) && RecId(c) != RecId(d)
    ensures a != b
  {
    SuffixesDiffer("/", RecId(c), RecId(d));
    assert ("/" + RecId(c))[0] == '/' && ("/" + RecId(d))[0] == '/';
    assert forall stamp: string :: ("~" + stamp)[0] == '~';
  }

  lemma ComponentsKeysDiffer(calendarId: int, c: Child, d: Child, row: EventRow, row': EventRow)
    requires row in ComponentRows(calendarId, c) && row' in ComponentRows(calendarId, d)
    requires Plain(c.uid.value) && Plain(d.uid.value) && (c.uid != d.uid || RecId(c) != RecId(d))
    ensures row.key != row'.key
  {
    var a := RowKeyAdds(calendarId, c, row);
    var b := RowKeyAdds(calendarId, d, row');
    if c.uid.value != d.uid.value {
      PlainUidsDiffer(c.uid.value, d.uid.value, a, b);
    } else {
      TailsDiffer(c, d, a, b);
      SuffixesDiffer(c.uid.value, a, b);
    }
  }

  /** All children of the objects, in the order of delivery. */
  function ObjectsChildren(objects: Objects): seq<Child> {
    if objects == [] then []
    else
      var last := objects[|objects| - 1];
      ObjectsChildren(objects[..|objects| - 1]) + if last.None? then [] else last.value
  }

  function PathsChildren(paths: seq<Option<Objects>>): seq<Child> {
    if paths == [] || paths[0].None? then [] else ObjectsChildren(paths[0].value) + PathsChildren(paths[1..])
  }

  /** What the server delivers up to the first path that fails. */
  function Delivered(server: Server): seq<Child> {
    if Discovers(server) then PathsChildren(server.discovered.value)
    else if server.direct.Some? then ObjectsChildren(server.direct.value)
    else []
  }

  lemma {:induction false} ObjectsRowsOfChildren(calendarId: int, objects: Objects)
    ensures ObjectsRows(calendarId, objects) == ComponentsRows(calendarId, ObjectsChildren(objects))
  {
    if objects != [] {
      var front, last := objects[..|objects| - 1], objects[|objects| - 1];
      ObjectsRowsOfChildren(calendarId, front);
      FlatMapAppend(ObjectsChildren(front), if last.None? then [] else last.value, RowsOf(calendarId));
    }
  }

  lemma {:induction false} PathsRowsOfChildren(calendarId: int, paths: seq<Option<Objects>>)
    ensures PathsRows(calendarId, paths) == ComponentsRows(calendarId, PathsChildren(paths))
  {
    if paths != [] && paths[0].Some? {
      ObjectsRowsOfChildren(calendarId, paths[0].value);
      PathsRowsOfChildren(calendarId, paths[1..]);
      FlatMapAppend(ObjectsChildren(paths[0].value), PathsChildren(paths[1..]), RowsOf(calendarId));
    }
  }

  lemma SyncRowsOfDelivered(calendarId: int, server: Server)
    ensures SyncRows(calendarId, server) == ComponentsRows(calendarId, Delivered(server))
  {
    if Discovers(server) {
      PathsRowsOfChildren(calendarId, server.discovered.value);
    } else if server.direct.Some? {
      ObjectsRowsOfChildren(calendarId, server.direct.value);
    }
  }

  /** UID and RECURRENCE-ID tell the opaque events apart, UIDs have no separator, and stamps tell occurrences apart. */
  ghost predicate ToldApart(cs: seq<Child>) {
    && (forall i :: 0 <= i < |cs| && Counts(cs[i]) ==> Plain(cs[i].uid.value) && StampsDiffer(cs[i]))
    && (forall i, j :: 0 <= i < j < |cs| && Counts(cs[i]) && Counts(cs[j]) ==>
                         cs[i].uid != cs[j].uid || RecId(cs[i]) != RecId(cs[j]))
  }

  lemma {:induction false} RowHasComponent(calendarId: int, cs: seq<Child>, row: EventRow)
    requires row in ComponentsRows(calendarId, cs)
    ensures exists i :: 0 <= i < |cs| && row in ComponentRows(calendarId, cs[i])
  {
    var n := |cs| - 1;
    if row !in ComponentRows(calendarId, cs[n]) {
      RowHasComponent(calendarId, cs[..n], row);
      var i :| 0 <= i < n && row in ComponentRows(calendarId, cs[..n][i]);
      assert cs[..n][i] == cs[i];
    }
  }

  lemma DistinctKeysAppend(a: seq<EventRow>, b: seq<EventRow>)
    requires DistinctKeys(a) && DistinctKeys(b)
    requires forall r, r' :: r in a && r' in b ==> r.key != r'.key
    ensures DistinctKeys(a + b)
  {
    forall i, j | 0 <= i < j < |a + b| ensures (a + b)[i].key != (a + b)[j].key {
      assert i < |a| ==> (a + b)[i] in a;
      assert j >= |a| ==> (a + b)[j] in b;
    }
  }

  lemma RowsNeedCounting(calendarId: int, c: Child, row: EventRow)
    requires row in ComponentRows(calendarId, c)
    ensures Counts(c)
  {
  }

  lemma {:induction false} ToldApartKeysDiffer(calendarId: int, cs: seq<Child>)
    requires ToldApart(cs)
    ensures DistinctKeys(ComponentsRows(calendarId, cs))
  {
    if cs != [] {
      var n := |cs| - 1;
      ToldApartKeysDiffer(calendarId, cs[..n]);
      if Counts(cs[n]) {
        ComponentKeysDiffer(calendarId, cs[n]);
      } else {
        assert ComponentRows(calendarId, cs[n]) == [];
      }
      forall r, r' | r in ComponentsRows(calendarId, cs[..n]) && r' in ComponentRows(calendarId, cs[n])
        ensures r.key != r'.key
      {
        RowHasComponent(calendarId, cs[..n], r);
        var i :| 0 <= i < n && r in ComponentRows(calendarId, cs[..n][i]);
        RowsNeedCounting(calendarId, cs[i], r);
        RowsNeedCounting(calendarId, cs[n], r');
        ComponentsKeysDiffer(calendarId, cs[i], cs[n], r, r');
      }
      DistinctKeysAppend(ComponentsRows(calendarId, cs[..n]), ComponentRows(calendarId, cs[n]));
    }
  }

  /**
    * The same with a condition on what the server delivers: if UID and RECURRENCE-ID tell its opaque events apart, UIDs
    * have neither of the two separators, and the occurrences of a rule have different stamps, no slot offered after the
    * sync overlaps a delivered busy time.
    */
  lemma WellNamedEventsBlockSlots(w: World, run: seq<Stmt>, calendarId: int, userId: int, server: Server, from: int,
                                  startAt: int, endAt: int, rules: Tables, bookings: Tables, q: Query, s: Slot)
    requires Owns(w.tables, userId, calendarId) && SyncSucceeds(server) && from <= q.now
    requires ToldApart(Delivered(server)) && BusyOnServer(server, startAt, endAt)
    requires SyncedDuring(run, calendarId, server, from, q.now)
    requires OfferedFrom(rules, ExecAll(w, run).tables, bookings, userId, q, s)
    requires s.end <= WindowEnd(q.now, q.bookingWindowDays)
    ensures !Overlaps(s.start, s.end, startAt, endAt)
  {
    SyncRowsOfDelivered(calendarId, server);
    ToldApartKeysDiffer(calendarId, Delivered(server));
    DeliveredEventsBlockSlots(w, run, calendarId, userId, server, from, startAt, endAt, rules, bookings, q, s);
  }

  // ---------- Keys that collide ----------

  function Meeting(uid: string, recurrenceId: Option<string>, startAt: int): Child {
    Child(true, false, Some(uid), recurrenceId, false, Some(startAt), Some(startAt + HOUR), None, "")
  }

  /**
    * The distinctness is not automatic: the key joins UID and RECURRENCE-ID by a character that both may contain, and
    * of two meetings under one key the first is lost.
    */
  lemma KeysCanCollide(calendarId: int, early: int, late: int)
    requires early != late
    ensures var objects := [Some([Meeting("a/b", None, early), Meeting("a", Some("b"), late)])];
            var m := UpsertAll(map[], ObjectsRows(calendarId, objects));
            m == map[EventKey(calendarId, "a/b") := CalendarEvent(late, late + HOUR, "")]
  {
    var first, second := Meeting("a/b", None, early), Meeting("a", Some("b"), late);
    var objects := [Some([first, second])];
    assert [first, second][..1] == [first] && [first][..0] == [] && objects[..0] == [];
    assert "a" + "/" + "b" == "a/b";
    var key := EventKey(calendarId, "a/b");
    var a, b := EventRow(key, CalendarEvent(early, early + HOUR, "")),
                EventRow(key, CalendarEvent(late, late + HOUR, ""));
    assert ComponentRows(calendarId, first) == [a] && ComponentRows(calendarId, second) == [b];
    assert ComponentsRows(calendarId, []) == [];
    assert ComponentsRows(calendarId, [first]) == [] + RowsOf(calendarId)(first) == [a];
    assert ObjectsRows(calendarId, objects) == [] + ComponentsRows(calendarId, [first, second]) == [a, b];
    UpsertAllOne(map[], a);
    assert [a, b][..1] == [a];
  }
}
