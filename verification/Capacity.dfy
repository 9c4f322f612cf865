/** How much of a host's time the live bookings can take. */
module Capacity {
  import opened Entities
  import opened Schema
  import opened Lifecycle

  /** The part of s between lo and hi, in nanoseconds. */
  function Clipped(s: Slot, lo: int, hi: int): nat {
    var from := if s.start < lo then lo else s.start;
    var to := if hi < s.end then hi else s.end;
    if from < to then to - from else 0
  }

  function Total(slots: seq<Slot>, lo: int, hi: int): nat {
    if slots == [] then 0 else Total(slots[..|slots| - 1], lo, hi) + Clipped(slots[|slots| - 1], lo, hi)
  }

  /** How many of the slots lie between lo and hi and last at least d. */
  function LongInside(slots: seq<Slot>, lo: int, hi: int, d: int): nat {
    if slots == [] then 0
    else
      var s := slots[|slots| - 1];
      LongInside(slots[..|slots| - 1], lo, hi, d)
      + if lo <= s.start && s.end <= hi && d <= s.end - s.start then 1 else 0
  }

  ghost predicate Apart(slots: seq<Slot>) {
    forall i, j :: 0 <= i < j < |slots| ==> !Overlaps(slots[i].start, slots[i].end, slots[j].start, slots[j].end)
  }

  /** Slots apart from a hole lose nothing when the hole is cut out of the range. */
  lemma {:induction false} TotalAroundHole(slots: seq<Slot>, hole: Slot, lo: int, hi: int)
    requires lo <= hole.start < hole.end <= hi
    requires forall s :: s in slots ==> s.end <= hole.start || hole.end <= s.start || s.end <= lo || hi <= s.start
    ensures Total(slots, lo, hi) == Total(slots, lo, hole.start) + Total(slots, hole.end, hi)
  {
    if slots != [] {
      TotalAroundHole(slots[..|slots| - 1], hole, lo, hi);
      assert slots[|slots| - 1] in slots;
    }
  }

  lemma {:induction false} ApartFit(slots: seq<Slot>, lo: int, hi: int)
    requires lo <= hi && Apart(slots)
    ensures Total(slots, lo, hi) <= hi - lo
    decreases |slots|
  {
    if slots != [] {
      var front, last := slots[..|slots| - 1], slots[|slots| - 1];
      if Clipped(last, lo, hi) == 0 {
        ApartFit(front, lo, hi);
      } else {
        var hole := Slot(if last.start < lo then lo else last.start, if hi < last.end then hi else last.end);
        TotalAroundHole(front, hole, lo, hi);
        ApartFit(front, lo, hole.start);
        ApartFit(front, hole.end, hi);
      }
    }
  }

  lemma {:induction false} LongInsideFit(slots: seq<Slot>, lo: int, hi: int, d: int)
    requires d > 0
    ensures LongInside(slots, lo, hi, d) * d <= Total(slots, lo, hi)
  {
    if slots != [] {
      var front, last := slots[..|slots| - 1], slots[|slots| - 1];
      LongInsideFit(front, lo, hi, d);
      var k := LongInside(front, lo, hi, d);
      if LongInside(slots, lo, hi, d) == k + 1 {
        assert (k + 1) * d == k * d + d;
      }
    }
  }

  /** The intervals of a host's live bookings. */
  function LiveOf(t: Tables, rows: seq<Booking>, userId: int): seq<Slot> {
    if rows == [] then []
    else
      var b := rows[|rows| - 1];
      LiveOf(t, rows[..|rows| - 1], userId)
      + if Live(b.status) && b.eventTypeId in t.eventTypes && t.eventTypes[b.eventTypeId].userId == userId
      then [Slot(b.startAt, b.endAt)] else []
  }

  lemma {:induction false} LiveOfAreRows(t: Tables, n: nat, userId: int, s: Slot)
    requires n <= |t.bookings| && s in LiveOf(t, t.bookings[..n], userId)
    ensures exists i: nat :: i < n && Live(t.bookings[i].status) && t.bookings[i].eventTypeId in t.eventTypes
                             && t.eventTypes[t.bookings[i].eventTypeId].userId == userId
                             && s == Slot(t.bookings[i].startAt, t.bookings[i].endAt)
  {
    if n > 0 {
      assert t.bookings[..n][..n - 1] == t.bookings[..n - 1];
      if s in LiveOf(t, t.bookings[..n - 1], userId) {
        LiveOfAreRows(t, n - 1, userId, s);
      } else {
        assert s == Slot(t.bookings[n - 1].startAt, t.bookings[n - 1].endAt);
      }
    }
  }

  lemma {:induction false} LiveOfApart(t: Tables, n: nat, userId: int)
    requires NoDoubleBooking(t) && n <= |t.bookings|
    ensures Apart(LiveOf(t, t.bookings[..n], userId))
  {
    if n > 0 {
      assert t.bookings[..n][..n - 1] == t.bookings[..n - 1];
      LiveOfApart(t, n - 1, userId);
      var front, all := LiveOf(t, t.bookings[..n - 1], userId), LiveOf(t, t.bookings[..n], userId);
      var b := t.bookings[n - 1];
      if |all| > |front| {
        forall k | 0 <= k < |front| ensures !Overlaps(front[k].start, front[k].end, b.startAt, b.endAt) {
          assert front[k] in front;
          LiveOfAreRows(t, n - 1, userId, front[k]);
          var i: nat :| i < n - 1 && Live(t.bookings[i].status) && t.bookings[i].eventTypeId in t.eventTypes
                        && t.eventTypes[t.bookings[i].eventTypeId].userId == userId
                        && front[k] == Slot(t.bookings[i].startAt, t.bookings[i].endAt);
          assert !Clash(t, i, n - 1);
        }
      }
    }
  }

  /**
    * In every state that operations reach, the live bookings of a host take at most hi - lo of any range from lo to hi,
    * so at most (hi - lo) / d of those that last d or longer lie inside it.
    */
  lemma HostIsNeverOverbooked(s: State, ops: seq<Op>, userId: int, lo: int, hi: int, d: int)
    requires Known(s.tables) && NoDoubleBooking(s.tables) && lo <= hi && d > 0
    ensures var t := Run(s, ops).tables;
            var live := LiveOf(t, t.bookings, userId);
            Total(live, lo, hi) <= hi - lo && LongInside(live, lo, hi, d) * d <= hi - lo
  {
    RunNeverDoubleBooks(s, ops);
    var t := Run(s, ops).tables;
    assert t.bookings[..|t.bookings|] == t.bookings;
    LiveOfApart(t, |t.bookings|, userId);
    ApartFit(LiveOf(t, t.bookings, userId), lo, hi);
    LongInsideFit(LiveOf(t, t.bookings, userId), lo, hi, d);
  }
}
