/** internal/booking/service.go: the booking operations on top of the database, with the notices that they send. */
module Service {
  import opened Entities
  import opened Schema
  import opened Interleaving
  import opened Lifecycle
  import opened Store

  datatype NotFound = NotFound

  lemma NextCancellation(ids: seq<nat>, i: nat)
    requires i < |ids|
    ensures Cancellations(ids)[..i + 1] == Cancellations(ids)[..i] + [Notice(ids[i], Cancelled)]
  {
  }

  lemma NoCancellationLeft(ids: seq<nat>)
    ensures Cancellations(ids)[..|ids|] == Cancellations(ids)
  {
  }

  /** Each notice went to the address of the guest of its booking. */
  predicate Addressed(log: seq<Notice>, recipients: seq<string>, rows: seq<Booking>) {
    && |recipients| == |log|
    && forall k :: 0 <= k < |log| ==> log[k].id < |rows| && recipients[k] == rows[log[k].id].guest.email
  }

  lemma CancellingKeepsAddresses(log: seq<Notice>, recipients: seq<string>, rows: seq<Booking>, ids: seq<nat>)
    requires Addressed(log, recipients, rows)
    ensures Addressed(log, recipients, AllCancelled(rows, ids))
  {
  }

  lemma OneMoreAddressed(log: seq<Notice>, recipients: seq<string>, rows: seq<Booking>, n: Notice)
    requires Addressed(log, recipients, rows) && n.id < |rows|
    ensures Addressed(log + [n], recipients + [rows[n.id].guest.email], rows)
  {
  }

  class BookingService {
    const db: Database
    var log: seq<Notice>
    var recipients: seq<string> // the address that the mail of each notice went to

    /** Every notice went to the guest of the booking that it is about. */
    predicate Valid()
      reads this, db
    {
      Addressed(log, recipients, db.bookings)
    }

    function State(): State
      reads this, db
    {
      Lifecycle.State(db.View(), log)
    }

    constructor (db: Database)
      ensures Valid() && this.db == db && log == []
    {
      this.db := db;
      log, recipients := [], [];
    }

    method DecideBooking(token: string, outcome: Status) returns (r: Result<Booking, NotFound>)
      requires Valid() && (outcome == Confirmed || outcome == Rejected)
      modifies this, db
      ensures Valid() && old(recipients) <= recipients
      ensures State() == Decided(old(State()), token, outcome)
      ensures r == match FindByToken(old(db.bookings), token)
                   case None => Err(NotFound)
                   case Some(id) => Ok(db.bookings[id])
    {
      var found := db.GetBookingByToken(token);
      if found.None? {
        return Err(NotFound);
      }
      var b := found.value.booking;
      if b.status != Pending {
        return Ok(b); // idempotent
      }
      db.UpdateBookingStatus(found.value.id, outcome);
      b := b.(status := outcome);
      log := log + [Notice(found.value.id, outcome)];
      recipients := recipients + [b.guest.email];
      return Ok(b);
    }

    /** internal/booking/service.go:54-107 */
    method ConfirmBooking(token: string) returns (r: Result<Booking, NotFound>)
      requires Valid()
      modifies this, db
      ensures Valid() && old(recipients) <= recipients
      ensures State() == Apply(old(State()), Confirm(token))
      ensures r == match FindByToken(old(db.bookings), token)
                   case None => Err(NotFound)
                   case Some(id) => Ok(db.bookings[id])
    {
      r := DecideBooking(token, Confirmed);
    }

    /** internal/booking/service.go:109-141 */
    method RejectBooking(token: string) returns (r: Result<Booking, NotFound>)
      requires Valid()
      modifies this, db
      ensures Valid() && old(recipients) <= recipients
      ensures State() == Apply(old(State()), Reject(token))
      ensures r == match FindByToken(old(db.bookings), token)
                   case None => Err(NotFound)
                   case Some(id) => Ok(db.bookings[id])
    {
      r := DecideBooking(token, Rejected);
    }

    /** internal/booking/service.go:156-169 */
    method NotifyAll(cancelled: seq<Row>, ghost ids: seq<nat>)
      requires Valid() && |cancelled| == |ids|
      requires forall j :: 0 <= j < |ids| ==> cancelled[j].id == ids[j] && ids[j] < |db.bookings|
      requires forall j :: 0 <= j < |ids| ==> cancelled[j].booking.guest == db.bookings[ids[j]].guest
      modifies this`log, this`recipients
      ensures Valid() && old(recipients) <= recipients && log == old(log) + Cancellations(ids)
    {
      for i := 0 to |cancelled|
        invariant Valid() && old(recipients) <= recipients && log == old(log) + Cancellations(ids)[..i]
      {
        var row := cancelled[i];
        OneMoreAddressed(log, recipients, db.bookings, Notice(row.id, Cancelled));
        log := log + [Notice(row.id, Cancelled)];
        recipients := recipients + [row.booking.guest.email];
        NextCancellation(ids, i);
      }
      NoCancellationLeft(ids);
    }

    /** One tick of the loop of internal/booking/service.go:143-174. */
    method Collect(now: int)
      requires Valid()
      modifies this, db
      ensures Valid() && old(recipients) <= recipients
      ensures State() == Apply(old(State()), Sweep(now))
    {
      ghost var before, ids := db.bookings, ExpiredIds(db.bookings, now);
      var cancelled := db.CancelExpiredBookings(now);
      CancellingKeepsAddresses(log, recipients, before, ids);
      NotifyAll(cancelled, ids);
    }
  }
}
