/** Bookings with whole operations as steps, and the guarantees that hold at this granularity. */
module Lifecycle {
  import opened Entities
  import opened Schema
  import opened Interleaving
  import opened Decisions

  datatype State = State(tables: Tables, log: seq<Notice>)

  datatype Op =
    | Book(b: Booking)
    | Confirm(token: string)
    | Reject(token: string)
    | Sweep(now: int)
    | Manage(a: Admin)

  function Decided(s: State, token: string, outcome: Status): State {
    match PendingRow(s.tables.bookings, token)
    case None => s
    case Some(id) =>
      State(s.tables.(bookings := StatusSet(s.tables.bookings, id, outcome)), s.log + [Notice(id, outcome)])
  }

  function Apply(s: State, op: Op): State {
    match op
    case Book(b) =>
      if b.eventTypeId !in s.tables.eventTypes then s
      else
        (match Inserted(s.tables, b)
         case Err(_) => s
         case Ok(t) => s.(tables := t))
    case Confirm(token) => Decided(s, token, Confirmed)
    case Reject(token) => Decided(s, token, Rejected)
    case Sweep(now) =>
      var ids := ExpiredIds(s.tables.bookings, now);
      State(s.tables.(bookings := AllCancelled(s.tables.bookings, ids)), s.log + Cancellations(ids))
    case Manage(a) => s.(tables := Administered(s.tables, a))
  }

  function Run(s: State, ops: seq<Op>): State
    decreases |ops|
  {
    if ops == [] then s else Run(Apply(s, ops[0]), ops[1..])
  }

  // ---------- Operations are the interleavings in which nothing comes between read and write ----------

  function Statements(op: Op): seq<Stmt> {
    match op
    case Book(b) => [Create(b)]
    case Confirm(token) => [ReadForConfirm(token), Perform(0)]
    case Reject(token) => [ReadForReject(token), Perform(0)]
    case Sweep(now) => [ReadForSweep(now), Perform(0)]
    case Manage(a) => [Administer(a)]
  }

  function AllStatements(ops: seq<Op>): seq<Stmt> {
    if ops == [] then [] else Statements(ops[0]) + AllStatements(ops[1..])
  }

  lemma ExecTwo(w: World, a: Stmt, b: Stmt)
    ensures ExecAll(w, [a, b]) == Exec(Exec(w, a), b)
  {
    var w1 := Exec(w, a);
    assert [a, b][1..] == [b];
    assert ExecAll(w1, [b]) == ExecAll(Exec(w1, b), []);
  }

  /** The machine of statements with nothing in flight and nothing raised. */
  function Idle(s: State): World {
    World(s.tables, [], {}, s.log)
  }

  lemma DecisionIsReadThenWrite(s: State, token: string)
    ensures Exec(Exec(Idle(s), ReadForConfirm(token)), Perform(0)) == Idle(Decided(s, token, Confirmed))
    ensures Exec(Exec(Idle(s), ReadForReject(token)), Perform(0)) == Idle(Decided(s, token, Rejected))
  {
  }

  lemma SweepIsReadThenWrite(s: State, now: int)
    ensures Exec(Exec(Idle(s), ReadForSweep(now)), Perform(0)) == Idle(Apply(s, Sweep(now)))
  {
    if ExpiredIds(s.tables.bookings, now) == [] {
      assert AllCancelled(s.tables.bookings, []) == s.tables.bookings;
    }
  }

  lemma OperationIsReadThenWrite(s: State, op: Op)
    ensures ExecAll(Idle(s), Statements(op)) == Idle(Apply(s, op))
  {
    match op
    case Book(b) => assert ExecAll(Idle(s), [Create(b)]) == ExecAll(Exec(Idle(s), Create(b)), []);
    case Manage(a) => assert ExecAll(Idle(s), [Administer(a)]) == ExecAll(Exec(Idle(s), Administer(a)), []);
    case Confirm(token) =>
      ExecTwo(Idle(s), ReadForConfirm(token), Perform(0));
      DecisionIsReadThenWrite(s, token);
    case Reject(token) =>
      ExecTwo(Idle(s), ReadForReject(token), Perform(0));
      DecisionIsReadThenWrite(s, token);
    case Sweep(now) =>
      ExecTwo(Idle(s), ReadForSweep(now), Perform(0));
      SweepIsReadThenWrite(s, now);
  }

  lemma {:induction false} RunIsSerialRun(s: State, ops: seq<Op>)
    ensures ExecAll(Idle(s), AllStatements(ops)) == Idle(Run(s, ops))
    decreases |ops|
  {
    if ops != [] {
      OperationIsReadThenWrite(s, ops[0]);
      ExecAllAppend(Idle(s), Statements(ops[0]), AllStatements(ops[1..]));
      RunIsSerialRun(Apply(s, ops[0]), ops[1..]);
    }
  }

  /** Over whole operations no host is ever double-booked, by any pair of event types. */
  lemma RunNeverDoubleBooks(s: State, ops: seq<Op>)
    requires Known(s.tables) && NoDoubleBooking(s.tables)
    ensures Known(Run(s, ops).tables) && NoDoubleBooking(Run(s, ops).tables)
  {
    var w := Idle(s);
    RunIsSerialRun(s, ops);
    RunKeepsRows(w, AllStatements(ops));
    DoubleBookingNeedsRaisedRow(w, AllStatements(ops));
  }

  lemma ApplyKeepsKnown(s: State, op: Op)
    requires Known(s.tables)
    ensures Known(Apply(s, op).tables)
  {
  }

  // ---------- One outcome per booking ----------

  function Outcomes(log: seq<Notice>, id: nat): seq<Status> {
    if log == [] then []
    else Outcomes(log[..|log| - 1], id) + if log[|log| - 1].id == id then [log[|log| - 1].outcome] else []
  }

  /** The decisions that the status column records for a row. */
  function Recorded(rows: seq<Booking>, id: nat): seq<Status> {
    if id < |rows| && rows[id].status != Pending then [rows[id].status] else []
  }

  /** Every booking was decided at most once, and the decision is the one in its row. */
  ghost predicate Agree(log: seq<Notice>, rows: seq<Booking>) {
    forall id: nat :: Outcomes(log, id) == Recorded(rows, id)
  }

  ghost predicate LogAgrees(s: State) {
    Agree(s.log, s.tables.bookings)
  }

  lemma {:induction false} OutcomesAppend(a: seq<Notice>, b: seq<Notice>, id: nat)
    ensures Outcomes(a + b, id) == Outcomes(a, id) + Outcomes(b, id)
    decreases |b|
  {
    if b == [] {
      assert a + b == a;
    } else {
      var n := |b| - 1;
      assert (a + b)[..|a| + n] == a + b[..n] && (a + b)[|a| + n] == b[n];
      OutcomesAppend(a, b[..n], id);
    }
  }

  lemma {:induction false} OutcomesOfCancellations(ids: seq<nat>, id: nat)
    requires forall i, j :: 0 <= i < j < |ids| ==> ids[i] < ids[j]
    ensures Outcomes(Cancellations(ids), id) == if id in ids then [Cancelled] else []
    decreases |ids|
  {
    if ids != [] {
      var n := |ids| - 1;
      assert Cancellations(ids)[..n] == Cancellations(ids[..n]);
      OutcomesOfCancellations(ids[..n], id);
      assert id in ids <==> id in ids[..n] || id == ids[n];
      assert ids[n] !in ids[..n];
    }
  }

  lemma DecidedKeepsLog(s: State, token: string, outcome: Status)
    requires LogAgrees(s) && outcome != Pending
    ensures LogAgrees(Decided(s, token, outcome))
  {
  }

  lemma RecordedAfterSweep(rows: seq<Booking>, now: int, id: nat)
    ensures var ids := ExpiredIds(rows, now);
            Recorded(AllCancelled(rows, ids), id) == Recorded(rows, id) + if id in ids then [Cancelled] else []
  {
  }

  lemma SweepKeepsOutcomes(log: seq<Notice>, rows: seq<Booking>, now: int, id: nat)
    requires Outcomes(log, id) == Recorded(rows, id)
    ensures var ids := ExpiredIds(rows, now);
            Outcomes(log + Cancellations(ids), id) == Recorded(AllCancelled(rows, ids), id)
  {
    var ids := ExpiredIds(rows, now);
    calc {
      Outcomes(log + Cancellations(ids), id);
    ==  { OutcomesAppend(log, Cancellations(ids), id); }
      Outcomes(log, id) + Outcomes(Cancellations(ids), id);
    ==  { OutcomesOfCancellations(ids, id); }
      Recorded(rows, id) + if id in ids then [Cancelled] else [];
    ==  { RecordedAfterSweep(rows, now, id); }
      Recorded(AllCancelled(rows, ids), id);
    }
  }

  lemma SweepKeepsLog(log: seq<Notice>, rows: seq<Booking>, now: int)
    requires Agree(log, rows)
    ensures var ids := ExpiredIds(rows, now); Agree(log + Cancellations(ids), AllCancelled(rows, ids))
  {
    forall id: nat
      ensures var ids := ExpiredIds(rows, now);
              Outcomes(log + Cancellations(ids), id) == Recorded(AllCancelled(rows, ids), id)
    {
      SweepKeepsOutcomes(log, rows, now, id);
    }
  }

  lemma BookKeepsLog(log: seq<Notice>, rows: seq<Booking>, b: Booking)
    requires Agree(log, rows) && b.status == Pending
    ensures Agree(log, rows + [b])
  {
    forall id: nat ensures Recorded(rows + [b], id) == Recorded(rows, id) {
    }
  }

  lemma ApplyKeepsLog(s: State, op: Op)
    requires Known(s.tables) && LogAgrees(s)
    ensures LogAgrees(Apply(s, op))
  {
    match op
    case Book(b) => BookKeepsLog(s.log, s.tables.bookings, b.(status := Pending));
    case Confirm(token) => DecidedKeepsLog(s, token, Confirmed);
    case Reject(token) => DecidedKeepsLog(s, token, Rejected);
    case Sweep(now) => SweepKeepsLog(s.log, s.tables.bookings, now);
    case Manage(a) => AdminKeepsBookings(s.tables, a);
  }

  /** Over every run each booking is decided at most once, and log and table tell the same story. */
  lemma {:induction false} OneOutcomePerBooking(s: State, ops: seq<Op>)
    requires Known(s.tables) && LogAgrees(s)
    ensures LogAgrees(Run(s, ops))
    decreases |ops|
  {
    if ops != [] {
      ApplyKeepsLog(s, ops[0]);
      ApplyKeepsKnown(s, ops[0]);
      OneOutcomePerBooking(Apply(s, ops[0]), ops[1..]);
    }
  }

  // ---------- Permanent decisions ----------

  lemma StepsOverwriteNothing(w: World, a: Stmt, b: Stmt)
    requires !Overwriting(w, a) && !Overwriting(Exec(w, a), b)
    ensures NothingOverwritten(w, [a, b])
  {
    assert [a, b][1..] == [b];
  }

  /** What a read finds PENDING is still PENDING when the write follows at once. */
  lemma OperationOverwritesNothing(s: State, op: Op)
    ensures NothingOverwritten(Idle(s), Statements(op))
  {
    match op
    case Book(_) =>
    case Manage(_) =>
    case Confirm(token) => StepsOverwriteNothing(Idle(s), ReadForConfirm(token), Perform(0));
    case Reject(token) => StepsOverwriteNothing(Idle(s), ReadForReject(token), Perform(0));
    case Sweep(now) => StepsOverwriteNothing(Idle(s), ReadForSweep(now), Perform(0));
  }

  lemma {:induction false} OperationsOverwriteNothing(s: State, ops: seq<Op>)
    ensures NothingOverwritten(Idle(s), AllStatements(ops))
    decreases |ops|
  {
    if ops != [] {
      OperationOverwritesNothing(s, ops[0]);
      OperationIsReadThenWrite(s, ops[0]);
      OperationsOverwriteNothing(Apply(s, ops[0]), ops[1..]);
      NothingOverwrittenAppend(Idle(s), Statements(ops[0]), AllStatements(ops[1..]));
    }
  }

  /** A terminal state is permanent: no later operation of any kind changes it. */
  lemma TerminalIsPermanent(s: State, ops: seq<Op>, id: nat)
    requires Known(s.tables) && id < |s.tables.bookings| && s.tables.bookings[id].status != Pending
    ensures id < |Run(s, ops).tables.bookings| && Run(s, ops).tables.bookings[id] == s.tables.bookings[id]
  {
    RunIsSerialRun(s, ops);
    OperationsOverwriteNothing(s, ops);
    DecisionsArePermanentExactly(Idle(s), AllStatements(ops));
    assert IsDecided(s.tables.bookings, id);
  }

  /** A sweep cancels exactly the PENDING rows whose reservation has run out, and leaves none of them. */
  lemma SweepIsExact(s: State, now: int)
    ensures var s' := Apply(s, Sweep(now));
            && |s'.tables.bookings| == |s.tables.bookings|
            && (forall i: nat :: i < |s.tables.bookings| ==>
                                   s'.tables.bookings[i] ==
                                   if s.tables.bookings[i].status == Pending
                                      && s.tables.bookings[i].reservedUntil <= now
                                   then s.tables.bookings[i].(status := Cancelled) else s.tables.bookings[i])
            && !(exists b :: b in s'.tables.bookings && b.status == Pending && b.reservedUntil <= now)
            && (forall id: nat :: Notice(id, Cancelled) in s'.log[|s.log|..] <==>
                                  id < |s.tables.bookings| && s.tables.bookings[id].status == Pending
                                  && s.tables.bookings[id].reservedUntil <= now)
  {
    var ids := ExpiredIds(s.tables.bookings, now);
    var s' := Apply(s, Sweep(now));
    assert s'.log[|s.log|..] == Cancellations(ids);
    forall id: nat ensures Notice(id, Cancelled) in Cancellations(ids) <==> id in ids {
      if id in ids {
        var i :| 0 <= i < |ids| && ids[i] == id;
        assert Cancellations(ids)[i] == Notice(id, Cancelled);
      }
    }
  }

  /** A token decides its own booking and no other, and only a PENDING one: confirm confirms it, reject rejects it. */
  lemma DecisionIsExact(s: State, token: string, id: nat)
    requires UniqueTokens(s.tables) && id < |s.tables.bookings|
    ensures var b := s.tables.bookings[id];
            var mine := b.token == token && b.status == Pending;
            && Apply(s, Confirm(token)).tables.bookings[id] == (if mine then b.(status := Confirmed) else b)
            && Apply(s, Reject(token)).tables.bookings[id] == (if mine then b.(status := Rejected) else b)
  {
  }
}
