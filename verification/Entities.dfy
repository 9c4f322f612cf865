/** Values shared by the whole model. An instant or a duration is a count of nanoseconds. */
module Entities {

  datatype Option<+T> = None | Some(value: T)

  datatype Result<+T, +E> = Ok(value: T) | Err(error: E)

  const SECOND := 1_000_000_000
  const MINUTE := 60 * SECOND
  const HOUR := 60 * MINUTE
  const DAY := 24 * HOUR

  const TWO63 := 0x8000_0000_0000_0000
  const TWO64 := 0x1_0000_0000_0000_0000

  /** Arithmetic on Go's time.Duration wraps around at 64 bits. */
  function Wrap64(x: int): (r: int)
    ensures -TWO63 <= r < TWO63
    ensures (r - x) % TWO64 == 0
    ensures -TWO63 <= x < TWO63 ==> r == x
  {
    (x + TWO63) % TWO64 - TWO63
  }

  datatype Status = Pending | Confirmed | Rejected | Cancelled

  /** A live booking occupies its slot. */
  predicate Live(s: Status) {
    s.Pending? || s.Confirmed?
  }

  datatype Guest = Guest(name: string, email: string, note: string)

  datatype Booking = Booking(
    eventTypeId: int, guest: Guest, startAt: int, endAt: int,
    status: Status, token: string, reservedUntil: int)

  datatype EventType = EventType(userId: int, durationMinutes: int, bookingWindowDays: int, active: bool)

  /** The columns of calendar_events that the key (calendar_id, uid) determines. */
  datatype CalendarEvent = CalendarEvent(startAt: int, endAt: int, summary: string)

  type Byte = x: int | 0 <= x < 256

  /** A weekly rule. The times are the stored text, byte by byte. */
  datatype Rule = Rule(userId: int, weekday: int, startTime: seq<Byte>, endTime: seq<Byte>, active: bool)

  datatype Slot = Slot(start: int, end: int)

  /** The overlap test that every query and every scan of the program uses. */
  predicate Overlaps(aStart: int, aEnd: int, bStart: int, bEnd: int) {
    aStart < bEnd && bStart < aEnd
  }

  ghost predicate Within(t: int, lo: int, hi: int) {
    lo <= t < hi
  }

  /** What the test means: two proper intervals overlap exactly when some instant lies in both. */
  lemma OverlapIsSharedInstant(aStart: int, aEnd: int, bStart: int, bEnd: int)
    requires aStart < aEnd && bStart < bEnd
    ensures Overlaps(aStart, aEnd, bStart, bEnd) <==>
            exists t :: Within(t, aStart, aEnd) && Within(t, bStart, bEnd)
  {
    var later := if aStart < bStart then bStart else aStart;
    if Overlaps(aStart, aEnd, bStart, bEnd) {
      assert Within(later, aStart, aEnd) && Within(later, bStart, bEnd);
    }
  }

  /**
    * A host's time zone. dayOf gives the civil day of an instant, with day 0 the 1st of January 1970;
    * at gives the instant of a civil day and a minute count from its midnight, normalised as time.Date does.
    */
  datatype Zone = Zone(dayOf: int -> int, at: (int, int) -> int)

  function FixedDayOf(offset: int, t: int): int {
    (t + offset) / DAY
  }

  function FixedAt(offset: int, day: int, minutes: int): int {
    day * DAY + minutes * MINUTE - offset
  }

  /** A zone with a constant offset from UTC. */
  function Fixed(offset: int): Zone {
    Zone(t => FixedDayOf(offset, t), (day, minutes) => FixedAt(offset, day, minutes))
  }

  function Utc(): Zone {
    Fixed(0)
  }

  /** The 1st of January 1970 was a Thursday; Sunday is 0. */
  function WeekdayOf(day: int): int {
    (day + 4) % 7
  }

  /** Day 0 was a Thursday, and the weekdays follow one another. */
  lemma WeekdaysFollow(day: int)
    ensures WeekdayOf(0) == 4 && 0 <= WeekdayOf(day) < 7
    ensures WeekdayOf(day + 1) == if WeekdayOf(day) == 6 then 0 else WeekdayOf(day) + 1
  {
  }
}
