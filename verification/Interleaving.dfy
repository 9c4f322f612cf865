/**
  * Bookings with single statements as steps. CreateBooking is one transaction on the only connection, but confirm,
  * reject and the expiry sweep read first and write later, and their writes test nothing.
  */
module Interleaving {
  import opened Entities
  import opened Schema

  /** The second half of a confirm, a reject or a sweep, on its way to the database. */
  datatype Write = ConfirmWrite(id: nat) | RejectWrite(id: nat) | CancelWrite(ids: seq<nat>)

  datatype Stmt =
    | Create(b: Booking)
    | ReadForConfirm(token: string)
    | ReadForReject(token: string)
    | ReadForSweep(now: int)
    | Perform(k: nat)
    | Administer(a: Admin)

  /** A decision made known to the guest. */
  datatype Notice = Notice(id: nat, outcome: Status)

  /**
    * raised collects the rows that a confirm write took from REJECTED or CANCELLED to CONFIRMED.
    * sent are the notices, which follow every write, whatever the row was before it.
    */
  datatype World = World(tables: Tables, inFlight: seq<Write>, raised: set<nat>, sent: seq<Notice>)

  function WriteEffect(rows: seq<Booking>, w: Write): seq<Booking> {
    match w
    case ConfirmWrite(id) => StatusSet(rows, id, Confirmed)
    case RejectWrite(id) => StatusSet(rows, id, Rejected)
    case CancelWrite(ids) => AllCancelled(rows, ids)
  }

  function Cancellations(ids: seq<nat>): seq<Notice> {
    seq(|ids|, i requires 0 <= i < |ids| => Notice(ids[i], Cancelled))
  }

  function NoticesOf(w: Write): seq<Notice> {
    match w
    case ConfirmWrite(id) => [Notice(id, Confirmed)]
    case RejectWrite(id) => [Notice(id, Rejected)]
    case CancelWrite(ids) => Cancellations(ids)
  }

  predicate Raises(rows: seq<Booking>, w: Write) {
    w.ConfirmWrite? && w.id < |rows| && !Live(rows[w.id].status)
  }

  function Exec(w: World, s: Stmt): World {
    match s
    case Create(b) =>
      // the handler answers 404 for an unknown event type, internal/handler/public.go:182-186
      if b.eventTypeId !in w.tables.eventTypes then w
      else
        (match Inserted(w.tables, b)
         case Err(_) => w
         case Ok(t) => w.(tables := t))
    case ReadForConfirm(token) =>
      (match PendingRow(w.tables.bookings, token)
       case None => w
       case Some(id) => w.(inFlight := w.inFlight + [ConfirmWrite(id)]))
    case ReadForReject(token) =>
      (match PendingRow(w.tables.bookings, token)
       case None => w
       case Some(id) => w.(inFlight := w.inFlight + [RejectWrite(id)]))
    case ReadForSweep(now) =>
      var ids := ExpiredIds(w.tables.bookings, now);
      if ids == [] then w else w.(inFlight := w.inFlight + [CancelWrite(ids)])
    case Perform(k) =>
      if k >= |w.inFlight| then w
      else
        var write := w.inFlight[k];
        World(w.tables.(bookings := WriteEffect(w.tables.bookings, write)),
              w.inFlight[..k] + w.inFlight[k + 1..],
              if Raises(w.tables.bookings, write) then w.raised + {write.id} else w.raised,
              w.sent + NoticesOf(write))
    case Administer(a) => w.(tables := Administered(w.tables, a))
  }

  function ExecAll(w: World, stmts: seq<Stmt>): World
    decreases |stmts|
  {
    if stmts == [] then w else ExecAll(Exec(w, stmts[0]), stmts[1..])
  }

  lemma {:induction false} ExecAllAppend(w: World, a: seq<Stmt>, b: seq<Stmt>)
    ensures ExecAll(w, a + b) == ExecAll(ExecAll(w, a), b)
    decreases |a|
  {
    if a == [] {
      assert a + b == b;
    } else {
      assert (a + b)[1..] == a[1..] + b;
      ExecAllAppend(Exec(w, a[0]), a[1..], b);
    }
  }

  // ---------- What every statement keeps ----------

  lemma ExecKeepsRows(w: World, s: Stmt)
    requires Known(w.tables)
    ensures var t' := Exec(w, s).tables; Known(t') && HostsKept(w.tables, t') && RowsKept(w.tables, t')
  {
    if s.Administer? {
      AdminKeepsBookings(w.tables, s.a);
    }
  }

  /** Over any run no row returns to PENDING or changes anything but its status, and event types keep their owner. */
  lemma {:induction false} RunKeepsRows(w: World, stmts: seq<Stmt>)
    requires Known(w.tables)
    ensures var t' := ExecAll(w, stmts).tables; Known(t') && HostsKept(w.tables, t') && RowsKept(w.tables, t')
    decreases |stmts|
  {
    if stmts != [] {
      ExecKeepsRows(w, stmts[0]);
      RunKeepsRows(Exec(w, stmts[0]), stmts[1..]);
    }
  }

  lemma ExecKeepsTokensUnique(w: World, s: Stmt)
    requires Known(w.tables) && UniqueTokens(w.tables)
    ensures UniqueTokens(Exec(w, s).tables)
  {
    ExecKeepsRows(w, s);
    var before, after := w.tables.bookings, Exec(w, s).tables.bookings;
    assert forall i :: 0 <= i < |before| ==> after[i].token == before[i].token;
  }

  lemma {:induction false} RunKeepsTokensUnique(w: World, stmts: seq<Stmt>)
    requires Known(w.tables) && UniqueTokens(w.tables)
    ensures UniqueTokens(ExecAll(w, stmts).tables)
    decreases |stmts|
  {
    if stmts != [] {
      ExecKeepsRows(w, stmts[0]);
      ExecKeepsTokensUnique(w, stmts[0]);
      RunKeepsTokensUnique(Exec(w, stmts[0]), stmts[1..]);
    }
  }

  // ---------- Double booking ----------

  /** Every double booking involves a raised row. */
  ghost predicate OnlyRaisedClash(w: World) {
    forall i: nat, j: nat :: Clash(w.tables, i, j) ==> i in w.raised || j in w.raised
  }

  /** The row that CreateBooking adds overlaps no live booking of its host. */
  lemma InsertedRowIsApart(t: Tables, b: Booking)
    requires Known(t)
    ensures var r := Inserted(t, b);
            r.Ok? ==> forall i: nat, j: nat :: Clash(r.value, i, j) ==> Clash(t, i, j)
  {
  }

  /** Between rows that were there before, a clash is old unless a statement just made one of the two rows live. */
  lemma ClashIsOldOrNew(w: World, s: Stmt, i: nat, j: nat)
    requires Known(w.tables) && Clash(Exec(w, s).tables, i, j)
    ensures Clash(w.tables, i, j)
            || (s.Perform? && s.k < |w.inFlight| && Raises(w.tables.bookings, w.inFlight[s.k])
                && w.inFlight[s.k].id in {i, j})
  {
    ExecKeepsRows(w, s);
    if s.Create? {
      InsertedRowIsApart(w.tables, s.b);
    }
  }

  lemma ExecKeepsOnlyRaisedClash(w: World, s: Stmt)
    requires Known(w.tables) && OnlyRaisedClash(w)
    ensures OnlyRaisedClash(Exec(w, s))
  {
    var w' := Exec(w, s);
    forall i: nat, j: nat | Clash(w'.tables, i, j) ensures i in w'.raised || j in w'.raised {
      ClashIsOldOrNew(w, s, i, j);
    }
  }

  /**
    * However creates, reads and writes interleave: if two live bookings of one host overlap, a confirm write
    * landed on one of them when it was already REJECTED or CANCELLED.
    */
  lemma {:induction false} DoubleBookingNeedsRaisedRow(w: World, stmts: seq<Stmt>)
    requires Known(w.tables) && OnlyRaisedClash(w)
    ensures OnlyRaisedClash(ExecAll(w, stmts))
    decreases |stmts|
  {
    if stmts != [] {
      ExecKeepsRows(w, stmts[0]);
      ExecKeepsOnlyRaisedClash(w, stmts[0]);
      DoubleBookingNeedsRaisedRow(Exec(w, stmts[0]), stmts[1..]);
    }
  }

  /** The confirm write is about to raise a row that CreateBooking would refuse to insert. */
  predicate Harmful(w: World, s: Stmt) {
    && s.Perform? && s.k < |w.inFlight|
    && Raises(w.tables.bookings, w.inFlight[s.k])
    && BookingConflict(w.tables, w.tables.bookings[w.inFlight[s.k].id])
  }

  lemma RaisedClashIsHarmful(w: World, s: Stmt, i: nat, j: nat)
    requires s.Perform? && s.k < |w.inFlight| && Raises(w.tables.bookings, w.inFlight[s.k])
    requires w.inFlight[s.k].id in {i, j} && Clash(Exec(w, s).tables, i, j)
    ensures Harmful(w, s)
  {
  }

  /** One statement keeps the hosts free of double bookings exactly when it is not harmful. */
  lemma ExecKeepsNoDoubleBookingExactly(w: World, s: Stmt)
    requires Known(w.tables) && NoDoubleBooking(w.tables)
    ensures NoDoubleBooking(Exec(w, s).tables) <==> !Harmful(w, s)
  {
    var t, t' := w.tables, Exec(w, s).tables;
    if Harmful(w, s) {
      var id := w.inFlight[s.k].id;
      var i :| 0 <= i < |t.bookings| && Live(t.bookings[i].status) && SameHost(t, t.bookings[i], t.bookings[id])
               && Overlaps(t.bookings[i].startAt, t.bookings[i].endAt, t.bookings[id].startAt, t.bookings[id].endAt);
      assert Clash(t', i, id);
    } else if !NoDoubleBooking(t') {
      var i: nat, j: nat :| Clash(t', i, j);
      ClashIsOldOrNew(w, s, i, j);
      RaisedClashIsHarmful(w, s, i, j);
    }
  }

  ghost predicate NeverDoubleBooked(w: World, stmts: seq<Stmt>)
    decreases |stmts|
  {
    NoDoubleBooking(w.tables) && (stmts != [] ==> NeverDoubleBooked(Exec(w, stmts[0]), stmts[1..]))
  }

  predicate Harmless(w: World, stmts: seq<Stmt>)
    decreases |stmts|
  {
    stmts != [] ==> !Harmful(w, stmts[0]) && Harmless(Exec(w, stmts[0]), stmts[1..])
  }

  /** A run is free of double bookings throughout exactly when none of its statements is harmful. */
  lemma {:induction false} RunIsSafeExactly(w: World, stmts: seq<Stmt>)
    requires Known(w.tables) && NoDoubleBooking(w.tables)
    ensures NeverDoubleBooked(w, stmts) <==> Harmless(w, stmts)
    decreases |stmts|
  {
    if stmts != [] {
      var w' := Exec(w, stmts[0]);
      ExecKeepsRows(w, stmts[0]);
      ExecKeepsNoDoubleBookingExactly(w, stmts[0]);
      if !Harmful(w, stmts[0]) {
        RunIsSafeExactly(w', stmts[1..]);
      }
    }
  }
}
