/**
  * Decisions with single statements as steps: when a decided row stays as it is, and what the guests are told.
  * The writes of confirm, reject and sweep do not test the row, and a notice follows every one of them.
  */
module Decisions {
  import opened Entities
  import opened Schema
  import opened Interleaving

  // ---------- A write, row by row ----------

  function Targets(write: Write): seq<nat> {
    match write
    case ConfirmWrite(id) => [id]
    case RejectWrite(id) => [id]
    case CancelWrite(ids) => ids
  }

  function Outcome(write: Write): (outcome: Status)
    ensures outcome != Pending
  {
    match write
    case ConfirmWrite(_) => Confirmed
    case RejectWrite(_) => Rejected
    case CancelWrite(_) => Cancelled
  }

  lemma WriteEffectAt(rows: seq<Booking>, write: Write, i: nat)
    requires i < |rows|
    ensures |WriteEffect(rows, write)| == |rows|
    ensures WriteEffect(rows, write)[i] == if i in Targets(write) then rows[i].(status := Outcome(write)) else rows[i]
  {
  }

  lemma NoticesAt(write: Write, n: Notice)
    ensures n in NoticesOf(write) <==> n.id in Targets(write) && n.outcome == Outcome(write)
  {
    if write.CancelWrite? && n.id in write.ids && n.outcome == Cancelled {
      var i :| 0 <= i < |write.ids| && write.ids[i] == n.id;
      assert NoticesOf(write)[i] == n;
    }
  }

  predicate Performs(w: World, s: Stmt) {
    s.Perform? && s.k < |w.inFlight|
  }

  // ---------- When decisions stay ----------

  predicate IsDecided(rows: seq<Booking>, i: nat) {
    i < |rows| && rows[i].status != Pending
  }

  /**
    * The write changes the decision of row i: a confirm lands on REJECTED or CANCELLED, a reject on CONFIRMED or
    * CANCELLED, or a sweep on CONFIRMED or REJECTED.
    */
  predicate Overwrites(rows: seq<Booking>, write: Write, i: nat) {
    i in Targets(write) && IsDecided(rows, i) && rows[i].status != Outcome(write)
  }

  predicate Overwriting(w: World, s: Stmt) {
    Performs(w, s) && exists i :: 0 <= i < |w.tables.bookings| && Overwrites(w.tables.bookings, w.inFlight[s.k], i)
  }

  ghost predicate DecisionsKept(rows: seq<Booking>, rows': seq<Booking>) {
    |rows| <= |rows'| && forall i: nat :: IsDecided(rows, i) ==> rows'[i] == rows[i]
  }

  lemma WriteKeepsDecisionsExactly(rows: seq<Booking>, write: Write)
    ensures DecisionsKept(rows, WriteEffect(rows, write)) <==>
            !exists i :: 0 <= i < |rows| && Overwrites(rows, write, i)
  {
    var rows' := WriteEffect(rows, write);
    forall i: nat | i < |rows|
      ensures |rows'| == |rows|
      ensures rows'[i] == if i in Targets(write) then rows[i].(status := Outcome(write)) else rows[i]
    {
      WriteEffectAt(rows, write, i);
    }
    if i: nat :| Overwrites(rows, write, i) {
      assert rows'[i] != rows[i];
    } else {
      forall i: nat | IsDecided(rows, i) ensures rows'[i] == rows[i] {
        assert !Overwrites(rows, write, i);
        assert rows[i].(status := rows[i].status) == rows[i];
      }
    }
  }

  /** One statement leaves every decided row as it is exactly when it is not a write that overwrites one. */
  lemma ExecKeepsDecisionsExactly(w: World, s: Stmt)
    requires Known(w.tables)
    ensures DecisionsKept(w.tables.bookings, Exec(w, s).tables.bookings) <==> !Overwriting(w, s)
  {
    ExecKeepsRows(w, s);
    if Performs(w, s) {
      WriteKeepsDecisionsExactly(w.tables.bookings, w.inFlight[s.k]);
    }
  }

  /** At every moment of the run the decided rows are as they will be at its end. */
  ghost predicate DecisionsArePermanent(w: World, stmts: seq<Stmt>)
    decreases |stmts|
  {
    && DecisionsKept(w.tables.bookings, ExecAll(w, stmts).tables.bookings)
    && (stmts != [] ==> DecisionsArePermanent(Exec(w, stmts[0]), stmts[1..]))
  }

  predicate NothingOverwritten(w: World, stmts: seq<Stmt>)
    decreases |stmts|
  {
    stmts != [] ==> !Overwriting(w, stmts[0]) && NothingOverwritten(Exec(w, stmts[0]), stmts[1..])
  }

  lemma {:induction false} NothingOverwrittenAppend(w: World, a: seq<Stmt>, b: seq<Stmt>)
    requires NothingOverwritten(w, a) && NothingOverwritten(ExecAll(w, a), b)
    ensures NothingOverwritten(w, a + b)
    decreases |a|
  {
    if a == [] {
      assert a + b == b;
    } else {
      assert (a + b)[1..] == a[1..] + b;
      NothingOverwrittenAppend(Exec(w, a[0]), a[1..], b);
    }
  }

  lemma DecisionsKeptTransitive(a: seq<Booking>, b: seq<Booking>, c: seq<Booking>)
    requires DecisionsKept(a, b) && DecisionsKept(b, c)
    ensures DecisionsKept(a, c)
  {
    forall i: nat | IsDecided(a, i) ensures c[i] == a[i] {
      assert IsDecided(b, i);
    }
  }

  /** A change that is kept to the end shows at the end. */
  lemma ChangeShows(a: seq<Booking>, b: seq<Booking>, c: seq<Booking>)
    requires |a| <= |b| && !DecisionsKept(a, b) && DecisionsKept(b, c)
    requires forall i: nat :: IsDecided(a, i) ==> IsDecided(b, i)
    ensures !DecisionsKept(a, c)
  {
    var i: nat :| IsDecided(a, i) && b[i] != a[i];
    assert IsDecided(b, i);
  }

  /** Decisions are permanent throughout an interleaving exactly when none of its writes overwrites one. */
  lemma {:induction false} DecisionsArePermanentExactly(w: World, stmts: seq<Stmt>)
    requires Known(w.tables)
    ensures DecisionsArePermanent(w, stmts) <==> NothingOverwritten(w, stmts)
    decreases |stmts|
  {
    if stmts != [] {
      var w' := Exec(w, stmts[0]);
      var end := ExecAll(w', stmts[1..]).tables.bookings;
      ExecKeepsRows(w, stmts[0]);
      ExecKeepsDecisionsExactly(w, stmts[0]);
      DecisionsArePermanentExactly(w', stmts[1..]);
      if NothingOverwritten(w', stmts[1..]) {
        if Overwriting(w, stmts[0]) {
          ChangeShows(w.tables.bookings, w'.tables.bookings, end);
        } else {
          DecisionsKeptTransitive(w.tables.bookings, w'.tables.bookings, end);
        }
      }
    }
  }

  // ---------- What the guests are told ----------

  predicate NamesRows(write: Write, rows: seq<Booking>) {
    forall i :: i in Targets(write) ==> i < |rows|
  }

  predicate WritesNameRows(w: World) {
    forall write :: write in w.inFlight ==> NamesRows(write, w.tables.bookings)
  }

  ghost predicate DecisionsAreTold(w: World) {
    forall i: nat :: IsDecided(w.tables.bookings, i) ==> Notice(i, w.tables.bookings[i].status) in w.sent
  }

  ghost predicate OnlyDecisionsAreTold(w: World) {
    forall n :: n in w.sent ==> IsDecided(w.tables.bookings, n.id)
  }

  /** Every decision has been told, and nothing is told of a booking that is not decided. */
  ghost predicate LogKeepsUp(w: World) {
    WritesNameRows(w) && DecisionsAreTold(w) && OnlyDecisionsAreTold(w)
  }

  lemma ReadNamesRow(w: World, s: Stmt, write: Write)
    requires write in Exec(w, s).inFlight && write !in w.inFlight
    ensures NamesRows(write, w.tables.bookings)
  {
  }

  lemma ReadsNameRows(w: World, s: Stmt)
    requires Known(w.tables) && WritesNameRows(w)
    ensures WritesNameRows(Exec(w, s))
  {
    ExecKeepsRows(w, s);
    var w' := Exec(w, s);
    forall write | write in w'.inFlight ensures NamesRows(write, w'.tables.bookings) {
      if write in w.inFlight {
        assert NamesRows(write, w.tables.bookings);
      } else {
        ReadNamesRow(w, s, write);
      }
    }
  }

  lemma PerformKeepsLogUp(w: World, s: Stmt)
    requires LogKeepsUp(w) && Performs(w, s)
    ensures DecisionsAreTold(Exec(w, s)) && OnlyDecisionsAreTold(Exec(w, s))
  {
    var write, w' := w.inFlight[s.k], Exec(w, s);
    forall i: nat | IsDecided(w'.tables.bookings, i) ensures Notice(i, w'.tables.bookings[i].status) in w'.sent {
      WriteEffectAt(w.tables.bookings, write, i);
      NoticesAt(write, Notice(i, Outcome(write)));
    }
    assert NamesRows(write, w.tables.bookings);
    forall n | n in w'.sent ensures IsDecided(w'.tables.bookings, n.id) {
      NoticesAt(write, n);
      WriteEffectAt(w.tables.bookings, write, n.id);
    }
  }

  lemma ExecKeepsLogUp(w: World, s: Stmt)
    requires Known(w.tables) && LogKeepsUp(w)
    ensures LogKeepsUp(Exec(w, s))
  {
    ReadsNameRows(w, s);
    if Performs(w, s) {
      PerformKeepsLogUp(w, s);
    } else if s.Administer? {
      AdminKeepsBookings(w.tables, s.a);
    }
  }

  /** However operations interleave, every decision is told and nothing is told of an undecided booking. */
  lemma {:induction false} RunKeepsLogUp(w: World, stmts: seq<Stmt>)
    requires Known(w.tables) && LogKeepsUp(w)
    ensures LogKeepsUp(ExecAll(w, stmts))
    decreases |stmts|
  {
    if stmts != [] {
      ExecKeepsRows(w, stmts[0]);
      ExecKeepsLogUp(w, stmts[0]);
      RunKeepsLogUp(Exec(w, stmts[0]), stmts[1..]);
    }
  }

  /** No guest is told two different outcomes. */
  ghost predicate OneOutcomeTold(w: World) {
    forall m, n :: m in w.sent && n in w.sent && m.id == n.id ==> m.outcome == n.outcome
  }

  lemma ExecTellsOneOutcomeExactly(w: World, s: Stmt)
    requires Known(w.tables) && LogKeepsUp(w) && OneOutcomeTold(w)
    ensures OneOutcomeTold(Exec(w, s)) <==> !Overwriting(w, s)
  {
    var w' := Exec(w, s);
    if Performs(w, s) {
      var write := w.inFlight[s.k];
      if i: nat :| Overwrites(w.tables.bookings, write, i) {
        NoticesAt(write, Notice(i, Outcome(write)));
        assert Notice(i, w.tables.bookings[i].status) in w'.sent && Notice(i, Outcome(write)) in w'.sent;
      } else {
        forall m, n | m in w'.sent && n in w'.sent && m.id == n.id ensures m.outcome == n.outcome {
          NoticesAt(write, m);
          NoticesAt(write, n);
          assert !Overwrites(w.tables.bookings, write, n.id);
        }
      }
    }
  }

  lemma {:induction false} LogGrows(w: World, stmts: seq<Stmt>)
    ensures w.sent <= ExecAll(w, stmts).sent
    decreases |stmts|
  {
    if stmts != [] {
      LogGrows(Exec(w, stmts[0]), stmts[1..]);
    }
  }

  /**
    * Each guest is told at most one outcome in an interleaving exactly when none of its writes overwrites a decision.
    */
  lemma {:induction false} OneOutcomeToldExactly(w: World, stmts: seq<Stmt>)
    requires Known(w.tables) && LogKeepsUp(w) && OneOutcomeTold(w)
    ensures OneOutcomeTold(ExecAll(w, stmts)) <==> NothingOverwritten(w, stmts)
    decreases |stmts|
  {
    if stmts != [] {
      var w' := Exec(w, stmts[0]);
      ExecKeepsRows(w, stmts[0]);
      ExecKeepsLogUp(w, stmts[0]);
      ExecTellsOneOutcomeExactly(w, stmts[0]);
      LogGrows(w', stmts[1..]);
      if !Overwriting(w, stmts[0]) {
        OneOutcomeToldExactly(w', stmts[1..]);
      }
    }
  }

  // ---------- What the guests are promised ----------

  predicate Promised(w: World, i: nat) {
    Notice(i, Confirmed) in w.sent
  }

  /** Two bookings of one host take place at the same time, whatever has become of them. */
  predicate Meet(t: Tables, i: nat, j: nat) {
    && i < |t.bookings| && j < |t.bookings| && i != j
    && SameHost(t, t.bookings[i], t.bookings[j])
    && Overlaps(t.bookings[i].startAt, t.bookings[i].endAt, t.bookings[j].startAt, t.bookings[j].endAt)
  }

  /** No two guests were ever told that they have a host's time. */
  ghost predicate PromisesApart(w: World) {
    forall i: nat, j: nat :: Promised(w, i) && Promised(w, j) ==> !Meet(w.tables, i, j)
  }

  /** A confirm write on a booking that meets one whose guest was told yes before. */
  predicate PromisesTwice(w: World, s: Stmt) {
    && Performs(w, s) && w.inFlight[s.k].ConfirmWrite?
    && exists j :: 0 <= j < |w.tables.bookings| && Promised(w, j) && Meet(w.tables, w.inFlight[s.k].id, j)
  }

  lemma MeetStays(t: Tables, t': Tables, i: nat, j: nat)
    requires Known(t) && HostsKept(t, t') && RowsKept(t, t') && i < |t.bookings| && j < |t.bookings|
    ensures Meet(t', i, j) <==> Meet(t, i, j)
  {
    assert t'.bookings[i].(status := t.bookings[i].status) == t.bookings[i];
    assert t'.bookings[j].(status := t.bookings[j].status) == t.bookings[j];
  }

  lemma NewPromise(w: World, s: Stmt, i: nat)
    requires LogKeepsUp(w) && Promised(Exec(w, s), i)
    ensures i < |w.tables.bookings|
    ensures Promised(w, i) || (Performs(w, s) && w.inFlight[s.k] == ConfirmWrite(i))
  {
    if Promised(w, i) {
      assert IsDecided(w.tables.bookings, Notice(i, Confirmed).id);
    } else {
      NoticesAt(w.inFlight[s.k], Notice(i, Confirmed));
      assert NamesRows(w.inFlight[s.k], w.tables.bookings);
    }
  }

  lemma ExecKeepsPromisesApartExactly(w: World, s: Stmt)
    requires Known(w.tables) && LogKeepsUp(w) && PromisesApart(w)
    ensures PromisesApart(Exec(w, s)) <==> !PromisesTwice(w, s)
  {
    var w' := Exec(w, s);
    ExecKeepsRows(w, s);
    if PromisesTwice(w, s) {
      var i := w.inFlight[s.k].id;
      var j: nat :| j < |w.tables.bookings| && Promised(w, j) && Meet(w.tables, i, j);
      assert Promised(w', i) && Promised(w', j);
      MeetStays(w.tables, w'.tables, i, j);
    } else {
      forall i: nat, j: nat | Promised(w', i) && Promised(w', j) && i != j ensures !Meet(w'.tables, i, j) {
        NewPromise(w, s, i);
        NewPromise(w, s, j);
        MeetStays(w.tables, w'.tables, i, j);
        MeetStays(w.tables, w'.tables, j, i);
      }
    }
  }

  predicate NoTimePromisedTwice(w: World, stmts: seq<Stmt>)
    decreases |stmts|
  {
    stmts != [] ==> !PromisesTwice(w, stmts[0]) && NoTimePromisedTwice(Exec(w, stmts[0]), stmts[1..])
  }

  lemma PromisesStayApartEarlier(w: World, stmts: seq<Stmt>)
    requires Known(w.tables) && LogKeepsUp(w) && PromisesApart(ExecAll(w, stmts))
    ensures PromisesApart(w)
  {
    var end := ExecAll(w, stmts);
    RunKeepsRows(w, stmts);
    LogGrows(w, stmts);
    forall i: nat, j: nat | Promised(w, i) && Promised(w, j) && Meet(w.tables, i, j) ensures false {
      MeetStays(w.tables, end.tables, i, j);
      assert Promised(end, i) && Promised(end, j);
    }
  }

  /**
    * The bookings whose guests were ever told yes are pairwise apart after an interleaving exactly when no confirm
    * write of it landed on a booking that met one of them.
    */
  lemma {:induction false} PromisesApartExactly(w: World, stmts: seq<Stmt>)
    requires Known(w.tables) && LogKeepsUp(w) && PromisesApart(w)
    ensures PromisesApart(ExecAll(w, stmts)) <==> NoTimePromisedTwice(w, stmts)
    decreases |stmts|
  {
    if stmts != [] {
      var w' := Exec(w, stmts[0]);
      ExecKeepsRows(w, stmts[0]);
      ExecKeepsLogUp(w, stmts[0]);
      ExecKeepsPromisesApartExactly(w, stmts[0]);
      if PromisesTwice(w, stmts[0]) {
        if PromisesApart(ExecAll(w', stmts[1..])) {
          PromisesStayApartEarlier(w', stmts[1..]);
        }
      } else {
        PromisesApartExactly(w', stmts[1..]);
      }
    }
  }

  // ---------- Promises that are kept ----------

  /** Whoever was told yes has a CONFIRMED row. */
  ghost predicate PromisesKept(w: World) {
    forall i: nat :: Promised(w, i) ==> i < |w.tables.bookings| && w.tables.bookings[i].status == Confirmed
  }

  /** A reject or a sweep write lands on a CONFIRMED row. */
  predicate Revokes(w: World, s: Stmt) {
    && Performs(w, s) && !w.inFlight[s.k].ConfirmWrite?
    && exists i :: 0 <= i < |w.tables.bookings| && i in Targets(w.inFlight[s.k])
                   && w.tables.bookings[i].status == Confirmed
  }

  lemma RevokingBreaksPromise(w: World, s: Stmt)
    requires LogKeepsUp(w) && Revokes(w, s)
    ensures !PromisesKept(Exec(w, s))
  {
    var rows, write := w.tables.bookings, w.inFlight[s.k];
    var i: nat :| i < |rows| && i in Targets(write) && rows[i].status == Confirmed;
    WriteEffectAt(rows, write, i);
    assert IsDecided(rows, i);
    assert Promised(Exec(w, s), i);
  }

  lemma ExecKeepsPromisesExactly(w: World, s: Stmt)
    requires Known(w.tables) && LogKeepsUp(w) && PromisesKept(w)
    ensures PromisesKept(Exec(w, s)) <==> !Revokes(w, s)
  {
    var w' := Exec(w, s);
    ExecKeepsRows(w, s);
    if Revokes(w, s) {
      RevokingBreaksPromise(w, s);
    } else {
      forall i: nat | Promised(w', i) ensures i < |w'.tables.bookings| && w'.tables.bookings[i].status == Confirmed {
        NewPromise(w, s, i);
        if Performs(w, s) {
          WriteEffectAt(w.tables.bookings, w.inFlight[s.k], i);
        }
      }
    }
  }

  /** The hosts are free of double bookings and every promise is kept. */
  ghost predicate Sound(w: World) {
    NoDoubleBooking(w.tables) && PromisesKept(w)
  }

  ghost predicate AlwaysSound(w: World, stmts: seq<Stmt>)
    decreases |stmts|
  {
    Sound(w) && (stmts != [] ==> AlwaysSound(Exec(w, stmts[0]), stmts[1..]))
  }

  predicate Dependable(w: World, stmts: seq<Stmt>)
    decreases |stmts|
  {
    stmts != [] ==> !Harmful(w, stmts[0]) && !Revokes(w, stmts[0]) && Dependable(Exec(w, stmts[0]), stmts[1..])
  }

  /**
    * Throughout an interleaving nobody is double-booked and whoever was told yes keeps the booking, exactly when none
    * of its writes is harmful and none revokes a confirmation.
    */
  lemma {:induction false} RunIsSoundExactly(w: World, stmts: seq<Stmt>)
    requires Known(w.tables) && LogKeepsUp(w) && Sound(w)
    ensures AlwaysSound(w, stmts) <==> Dependable(w, stmts)
    decreases |stmts|
  {
    if stmts != [] {
      ExecKeepsRows(w, stmts[0]);
      ExecKeepsLogUp(w, stmts[0]);
      ExecKeepsNoDoubleBookingExactly(w, stmts[0]);
      ExecKeepsPromisesExactly(w, stmts[0]);
      if !Harmful(w, stmts[0]) && !Revokes(w, stmts[0]) {
        RunIsSoundExactly(Exec(w, stmts[0]), stmts[1..]);
      }
    }
  }

  /** Kept promises of hosts that are not double-booked are apart. */
  lemma SoundPromisesAreApart(w: World)
    requires Sound(w)
    ensures PromisesApart(w)
  {
    forall i: nat, j: nat | Promised(w, i) && Promised(w, j) ensures !Meet(w.tables, i, j) {
      assert !Clash(w.tables, i, j);
    }
  }

  lemma {:induction false} EndIsSound(w: World, stmts: seq<Stmt>)
    requires AlwaysSound(w, stmts)
    ensures Sound(ExecAll(w, stmts))
    decreases |stmts|
  {
    if stmts != [] {
      EndIsSound(Exec(w, stmts[0]), stmts[1..]);
    }
  }

  lemma HarmIsOverwriting(w: World, s: Stmt)
    requires Harmful(w, s) || Revokes(w, s)
    ensures Overwriting(w, s)
  {
    var rows, write := w.tables.bookings, w.inFlight[s.k];
    var i: nat :| i < |rows| && i in Targets(write) && rows[i].status != Pending && rows[i].status != Outcome(write);
    assert Overwrites(rows, write, i);
  }

  lemma {:induction false} NothingOverwrittenIsDependable(w: World, stmts: seq<Stmt>)
    requires NothingOverwritten(w, stmts)
    ensures Dependable(w, stmts)
    decreases |stmts|
  {
    if stmts != [] {
      if Harmful(w, stmts[0]) || Revokes(w, stmts[0]) {
        HarmIsOverwriting(w, stmts[0]);
      }
      NothingOverwrittenIsDependable(Exec(w, stmts[0]), stmts[1..]);
    }
  }

  /** Where no write is harmful or revokes a confirmation, no two guests are ever told that they have a host's time. */
  lemma DependableRunsPromiseOnce(w: World, stmts: seq<Stmt>)
    requires Known(w.tables) && LogKeepsUp(w) && Sound(w) && Dependable(w, stmts)
    ensures Sound(ExecAll(w, stmts)) && PromisesApart(ExecAll(w, stmts))
  {
    RunIsSoundExactly(w, stmts);
    EndIsSound(w, stmts);
    SoundPromisesAreApart(ExecAll(w, stmts));
  }

  /** In particular where no write overwrites a decision. */
  lemma PermanentDecisionsPromiseOnce(w: World, stmts: seq<Stmt>)
    requires Known(w.tables) && LogKeepsUp(w) && Sound(w) && NothingOverwritten(w, stmts)
    ensures Sound(ExecAll(w, stmts)) && PromisesApart(ExecAll(w, stmts))
  {
    NothingOverwrittenIsDependable(w, stmts);
    DependableRunsPromiseOnce(w, stmts);
  }
}
