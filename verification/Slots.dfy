/** internal/calendar/slots.go: the slot calculator and its declarative meaning. */
module Slots {
  import opened Entities
  import opened Sequences

  datatype Query = Query(date: int, duration: int, loc: Zone, bookingWindowDays: int, now: int)

  // ---------- Rule times ----------

  /** int(c - '0') on bytes: the subtraction wraps at 8 bits and nothing checks that c is a digit. */
  function Digit(c: Byte): int {
    (c - 48) % 256
  }

  function ParseHHMM(s: seq<Byte>): (int, int) {
    if |s| != 5 || s[2] != 58 then (0, 0)
    else (Digit(s[0]) * 10 + Digit(s[1]), Digit(s[3]) * 10 + Digit(s[4]))
  }

  function FormatHHMM(h: int, m: int): seq<Byte>
    requires 0 <= h < 100 && 0 <= m < 100
  {
    [48 + h / 10, 48 + h % 10, 58, 48 + m / 10, 48 + m % 10]
  }

  /** Digits read as their value and later characters as more; earlier ones wrap around. */
  lemma DigitOfCode(d: int)
    requires -48 <= d < 208
    ensures Digit(48 + d) == if d >= 0 then d else d + 256
  {
  }

  lemma ParseInvertsFormat(h: int, m: int)
    requires 0 <= h < 100 && 0 <= m < 100
    ensures ParseHHMM(FormatHHMM(h, m)) == (h, m)
  {
    DigitOfCode(h / 10);
    DigitOfCode(h % 10);
    DigitOfCode(m / 10);
    DigitOfCode(m % 10);
  }

  function MinuteOfDay(s: seq<Byte>): int {
    var (h, m) := ParseHHMM(s); h * 60 + m
  }

  function RuleStart(r: Rule, q: Query): int {
    q.loc.at(q.loc.dayOf(q.date), MinuteOfDay(r.startTime))
  }

  function RuleEnd(r: Rule, q: Query): int {
    q.loc.at(q.loc.dayOf(q.date), MinuteOfDay(r.endTime))
  }

  /** A rule that says HH:MM starts and ends at those minutes of its day, and a text of another shape is midnight. */
  lemma RuleTimesAreTheirTexts(r: Rule, q: Query, h: int, m: int)
    requires 0 <= h < 100 && 0 <= m < 100
    ensures r.startTime == FormatHHMM(h, m) ==> RuleStart(r, q) == q.loc.at(q.loc.dayOf(q.date), 60 * h + m)
    ensures r.endTime == FormatHHMM(h, m) ==> RuleEnd(r, q) == q.loc.at(q.loc.dayOf(q.date), 60 * h + m)
    ensures |r.startTime| != 5 || r.startTime[2] != 58 ==> RuleStart(r, q) == q.loc.at(q.loc.dayOf(q.date), 0)
    ensures |r.endTime| != 5 || r.endTime[2] != 58 ==> RuleEnd(r, q) == q.loc.at(q.loc.dayOf(q.date), 0)
  {
    ParseInvertsFormat(h, m);
  }

  lemma FixedClock(offset: int, day: int, h: int, m: int)
    ensures FixedDayOf(offset, FixedAt(offset, day, 0)) == day
    ensures FixedAt(offset, day, 60 * h + m) == day * DAY + h * HOUR + m * MINUTE - offset
  {
  }

  lemma DayInFixedZone(q: Query, offset: int, day: int)
    requires q.loc == Fixed(offset) && q.date == FixedAt(offset, day, 0)
    ensures q.loc.dayOf(q.date) == day && forall minutes :: q.loc.at(day, minutes) == FixedAt(offset, day, minutes)
  {
    FixedClock(offset, day, 0, 0);
    assert q.loc.dayOf(q.date) == FixedDayOf(offset, q.date);
  }

  /** With a constant offset that is so many hours and minutes after midnight. */
  lemma RuleTimesInFixedZone(r: Rule, q: Query, offset: int, day: int, h: int, m: int)
    requires 0 <= h < 100 && 0 <= m < 100 && q.loc == Fixed(offset) && q.date == FixedAt(offset, day, 0)
    ensures r.startTime == FormatHHMM(h, m) ==> RuleStart(r, q) == day * DAY + h * HOUR + m * MINUTE - offset
    ensures r.endTime == FormatHHMM(h, m) ==> RuleEnd(r, q) == day * DAY + h * HOUR + m * MINUTE - offset
  {
    RuleTimesAreTheirTexts(r, q, h, m);
    DayInFixedZone(q, offset, day);
    FixedClock(offset, day, h, m);
  }

  predicate Matches(r: Rule, q: Query) {
    r.weekday == WeekdayOf(q.loc.dayOf(q.date)) && r.active
  }

  function WindowEnd(now: int, days: int): int {
    now + Wrap64(days * DAY)
  }

  const MAX_WINDOW_DAYS := 106_751

  /**
    * The forms take any positive number of days; past the maximum the 64-bit product wraps and the window is another
    * one.
    */
  lemma WindowEndExactly(now: int, days: int)
    ensures WindowEnd(now, days) == now + days * DAY <==> -MAX_WINDOW_DAYS <= days <= MAX_WINDOW_DAYS
  {
  }

  // ---------- The declarative meaning of the result ----------

  /** s is one of the back-to-back slots of length d that fit between lo and hi, counted from lo. */
  predicate OnGrid(s: Slot, lo: int, hi: int, d: int) {
    d > 0 && s.end == s.start + d && lo <= s.start && s.end <= hi && (s.start - lo) % d == 0
  }

  predicate RuleGives(r: Rule, s: Slot, q: Query) {
    Matches(r, q) && OnGrid(s, RuleStart(r, q), RuleEnd(r, q), q.duration)
  }

  function Gives(s: Slot, q: Query): Rule -> bool {
    r => RuleGives(r, s, q)
  }

  /** The number of rules that give s. */
  function Copies(rules: seq<Rule>, s: Slot, q: Query): nat {
    Count(rules, Gives(s, q))
  }

  predicate InWindow(s: Slot, q: Query) {
    q.now < s.start <= WindowEnd(q.now, q.bookingWindowDays)
  }

  ghost predicate EventBusy(s: Slot, events: set<CalendarEvent>) {
    exists e :: e in events && Overlaps(s.start, s.end, e.startAt, e.endAt)
  }

  ghost predicate BookingBusy(s: Slot, bookings: set<Booking>) {
    exists b :: b in bookings && Live(b.status) && Overlaps(s.start, s.end, b.startAt, b.endAt)
  }

  ghost predicate Free(s: Slot, events: set<CalendarEvent>, bookings: set<Booking>, q: Query) {
    InWindow(s, q) && !EventBusy(s, events) && !BookingBusy(s, bookings)
  }

  ghost predicate SortedByStart(slots: seq<Slot>) {
    forall i, j :: 0 <= i < j < |slots| ==> slots[i].start <= slots[j].start
  }

  /** out lists, by start, every free slot as often as rules give it. */
  ghost predicate Answers(out: seq<Slot>, rules: seq<Rule>, events: set<CalendarEvent>, bookings: set<Booking>,
                          q: Query) {
    && SortedByStart(out)
    && forall s: Slot :: multiset(out)[s] == if Free(s, events, bookings, q) then Copies(rules, s, q) else 0
  }

  /** The grid loop of one rule comes to its exit. */
  predicate GridLoopExits(lo: int, hi: int, d: int) {
    d > 0 || lo + d > hi
  }

  predicate Terminates(rules: seq<Rule>, q: Query) {
    forall r :: r in rules && Matches(r, q) ==> GridLoopExits(RuleStart(r, q), RuleEnd(r, q), q.duration)
  }

  /** The exit test of the grid loop after k steps. */
  predicate ExitsAt(k: nat, lo: int, hi: int, d: int) {
    lo + k * d + d > hi
  }

  lemma MulGrows(k: nat, d: int)
    requires d > 0
    ensures k * d >= k
  {
  }

  lemma MulShrinks(k: nat, d: int)
    requires d <= 0
    ensures k * d <= 0
  {
  }

  lemma GridLoopExitsExactly(lo: int, hi: int, d: int)
    ensures GridLoopExits(lo, hi, d) <==> exists k: nat :: ExitsAt(k, lo, hi, d)
  {
    if d > 0 {
      var k: nat := if hi > lo then hi - lo else 0;
      assert k * d >= k by { MulGrows(k, d); }
      assert ExitsAt(k, lo, hi, d);
    } else if lo + d > hi {
      assert ExitsAt(0, lo, hi, d);
    } else {
      forall k: nat ensures !ExitsAt(k, lo, hi, d) { MulShrinks(k, d); }
    }
  }

  // ---------- The computation ----------

  function Grid(lo: int, hi: int, d: int): seq<Slot>
    requires GridLoopExits(lo, hi, d)
    decreases hi - lo - d
  {
    if lo + d > hi then [] else [Slot(lo, lo + d)] + Grid(lo + d, hi, d)
  }

  /** internal/calendar/slots.go:48-54 */
  method RuleCandidates(ruleStart: int, ruleEnd: int, duration: int) returns (candidates: seq<Slot>)
    requires GridLoopExits(ruleStart, ruleEnd, duration)
    ensures candidates == Grid(ruleStart, ruleEnd, duration)
  {
    candidates := [];
    var slotStart := ruleStart;
    while slotStart + duration <= ruleEnd
      invariant GridLoopExits(slotStart, ruleEnd, duration)
      invariant candidates + Grid(slotStart, ruleEnd, duration) == Grid(ruleStart, ruleEnd, duration)
      decreases ruleEnd - slotStart - duration
    {
      candidates := candidates + [Slot(slotStart, slotStart + duration)];
      slotStart := slotStart + duration;
    }
  }

  /** A multiple of d other than zero is at least d away from zero. */
  lemma MultiplesAreApart(k: int, d: int)
    requires d > 0
    ensures k > 0 ==> k * d >= d
    ensures k < 0 ==> k * d <= -d
  {
  }

  lemma DivModShift(x: int, d: int)
    requires d > 0
    ensures (x - d) % d == x % d
    ensures (x - d) / d == x / d - 1
  {
    var k := (x - d) / d - x / d + 1;
    assert x == (x / d) * d + x % d && x - d == ((x - d) / d) * d + (x - d) % d;
    assert k * d == x % d - (x - d) % d;
    MultiplesAreApart(k, d);
  }

  lemma OnGridStep(s: Slot, lo: int, hi: int, d: int)
    requires d > 0 && lo + d <= hi
    ensures OnGrid(s, lo, hi, d) <==> s == Slot(lo, lo + d) || OnGrid(s, lo + d, hi, d)
  {
    DivModShift(s.start - lo, d);
    assert s.start - lo - d == s.start - (lo + d);
    if lo <= s.start < lo + d {
      assert (s.start - lo) / d == 0;
      assert (s.start - lo) % d == s.start - lo;
    }
  }

  /** The grid of a rule holds each of its slots once and nothing else. */
  lemma {:induction false} GridCounts(lo: int, hi: int, d: int, s: Slot)
    requires GridLoopExits(lo, hi, d)
    ensures multiset(Grid(lo, hi, d))[s] == if OnGrid(s, lo, hi, d) then 1 else 0
    decreases hi - lo - d
  {
    if lo + d <= hi {
      GridCounts(lo + d, hi, d, s);
      OnGridStep(s, lo, hi, d);
      var rest := Grid(lo + d, hi, d);
      assert multiset([Slot(lo, lo + d)] + rest) == multiset{Slot(lo, lo + d)} + multiset(rest);
    }
  }

  /** A rule gives floor((ruleEnd - ruleStart) / duration) candidates, or none when it is reversed. */
  lemma {:induction false} GridLength(lo: int, hi: int, d: int)
    requires d > 0
    ensures |Grid(lo, hi, d)| == if lo <= hi then (hi - lo) / d else 0
    decreases hi - lo - d
  {
    if lo + d <= hi {
      GridLength(lo + d, hi, d);
      DivModShift(hi - lo, d);
      assert hi - lo - d == hi - (lo + d);
    }
  }

  function MatchingRules(rules: seq<Rule>, q: Query): (m: seq<Rule>)
    ensures forall r :: r in m ==> r in rules && Matches(r, q)
  {
    if rules == [] then []
    else
      var last := rules[|rules| - 1];
      MatchingRules(rules[..|rules| - 1], q) + if Matches(last, q) then [last] else []
  }

  function Candidates(matching: seq<Rule>, q: Query): seq<Slot>
    requires Terminates(matching, q)
    requires forall r :: r in matching ==> Matches(r, q)
  {
    if matching == [] then []
    else
      var last := matching[|matching| - 1];
      assert last in matching;
      Candidates(matching[..|matching| - 1], q) + Grid(RuleStart(last, q), RuleEnd(last, q), q.duration)
  }

  ghost function Available(candidates: seq<Slot>, events: set<CalendarEvent>, bookings: set<Booking>,
                           q: Query): seq<Slot> {
    if candidates == [] then []
    else
      var last := candidates[|candidates| - 1];
      Available(candidates[..|candidates| - 1], events, bookings, q)
      + if Free(last, events, bookings, q) then [last] else []
  }

  method OverlapsAnyEvent(slot: Slot, events: seq<CalendarEvent>) returns (hit: bool)
    ensures hit <==> EventBusy(slot, (set e | e in events))
  {
    for i := 0 to |events|
      invariant forall j :: 0 <= j < i ==> !Overlaps(slot.start, slot.end, events[j].startAt, events[j].endAt)
    {
      if slot.start < events[i].endAt && slot.end > events[i].startAt {
        assert events[i] in set e | e in events;
        return true;
      }
    }
    return false;
  }

  method OverlapsAnyBooking(slot: Slot, bookings: seq<Booking>) returns (hit: bool)
    ensures hit <==> BookingBusy(slot, (set b | b in bookings))
  {
    for i := 0 to |bookings|
      invariant forall j :: 0 <= j < i ==>
                              !(Live(bookings[j].status)
                                && Overlaps(slot.start, slot.end, bookings[j].startAt, bookings[j].endAt))
    {
      if bookings[i].status != Pending && bookings[i].status != Confirmed {
        continue;
      }
      if slot.start < bookings[i].endAt && slot.end > bookings[i].startAt {
        assert bookings[i] in set b | b in bookings;
        return true;
      }
    }
    return false;
  }

  lemma PartsKeepOrder(slots: seq<Slot>, k: nat)
    requires SortedByStart(slots) && k <= |slots|
    ensures SortedByStart(slots[..k]) && SortedByStart(slots[k..])
    ensures k > 0 ==> forall i :: 0 <= i < k ==> slots[..k][i].start <= slots[k - 1].start
  {
  }

  lemma InsertKeepsOrder(front: seq<Slot>, s: Slot, back: seq<Slot>)
    requires SortedByStart(front) && SortedByStart(back)
    requires forall i :: 0 <= i < |front| ==> front[i].start <= s.start
    requires forall i :: 0 <= i < |back| ==> s.start <= back[i].start
    ensures SortedByStart(front + [s] + back)
  {
  }

  method InsertByStart(slots: seq<Slot>, s: Slot) returns (out: seq<Slot>)
    requires SortedByStart(slots)
    ensures SortedByStart(out) && multiset(out) == multiset(slots) + multiset{s}
  {
    var k: nat := |slots|;
    while k > 0 && slots[k - 1].start > s.start
      invariant k <= |slots|
      invariant forall j :: k <= j < |slots| ==> slots[j].start > s.start
    {
      k := k - 1;
    }
    out := slots[..k] + [s] + slots[k..];
    InsertOne(slots, k, s);
    PartsKeepOrder(slots, k);
    InsertKeepsOrder(slots[..k], s, slots[k..]);
  }

  /**
    * Stands for sort.Slice. Callers know only that the result is sorted by start and a permutation,
    * which is all that an unstable sort promises.
    */
  method SortByStart(slots: seq<Slot>) returns (sorted: seq<Slot>)
    ensures SortedByStart(sorted) && multiset(sorted) == multiset(slots)
  {
    sorted := [];
    for i := 0 to |slots|
      invariant SortedByStart(sorted) && multiset(sorted) == multiset(slots[..i])
    {
      assert slots[..i + 1] == slots[..i] + [slots[i]];
      sorted := InsertByStart(sorted, slots[i]);
    }
    assert slots[..|slots|] == slots;
  }

  /** internal/calendar/slots.go:29-35 */
  method CollectMatching(rules: seq<Rule>, q: Query) returns (matchingRules: seq<Rule>)
    ensures matchingRules == MatchingRules(rules, q)
  {
    matchingRules := [];
    for i := 0 to |rules|
      invariant matchingRules == MatchingRules(rules[..i], q)
    {
      assert rules[..i + 1][..i] == rules[..i];
      if rules[i].weekday == WeekdayOf(q.loc.dayOf(q.date)) && rules[i].active {
        matchingRules := matchingRules + [rules[i]];
      }
    }
    assert rules[..|rules|] == rules;
  }

  /** internal/calendar/slots.go:39-55 */
  method CollectCandidates(matchingRules: seq<Rule>, q: Query) returns (candidates: seq<Slot>)
    requires Terminates(matchingRules, q)
    requires forall r :: r in matchingRules ==> Matches(r, q)
    ensures candidates == Candidates(matchingRules, q)
  {
    candidates := [];
    for i := 0 to |matchingRules|
      invariant candidates == Candidates(matchingRules[..i], q)
    {
      assert matchingRules[..i + 1][..i] == matchingRules[..i];
      var rule := matchingRules[i];
      assert rule in matchingRules;
      var grid := RuleCandidates(RuleStart(rule, q), RuleEnd(rule, q), q.duration);
      candidates := candidates + grid;
    }
    assert matchingRules[..|matchingRules|] == matchingRules;
  }

  /** internal/calendar/slots.go:58-73 */
  method FilterSlots(candidates: seq<Slot>, events: seq<CalendarEvent>, bookings: seq<Booking>, q: Query)
    returns (available: seq<Slot>)
    ensures available == Available(candidates, (set e | e in events), (set b | b in bookings), q)
  {
    var windowEnd := WindowEnd(q.now, q.bookingWindowDays);
    available := [];
    for i := 0 to |candidates|
      invariant available == Available(candidates[..i], (set e | e in events), (set b | b in bookings), q)
    {
      assert candidates[..i + 1][..i] == candidates[..i];
      var slot := candidates[i];
      if !(slot.start > q.now) {
        continue;
      }
      if slot.start > windowEnd {
        continue;
      }
      var eventBusy := OverlapsAnyEvent(slot, events);
      if eventBusy {
        continue;
      }
      var bookingBusy := OverlapsAnyBooking(slot, bookings);
      if bookingBusy {
        continue;
      }
      available := available + [slot];
    }
    assert candidates[..|candidates|] == candidates;
  }

  lemma {:induction false} CopiesOfMatching(rules: seq<Rule>, q: Query, s: Slot)
    ensures Copies(MatchingRules(rules, q), s, q) == Copies(rules, s, q)
  {
    if rules != [] {
      CopiesOfMatching(rules[..|rules| - 1], q, s);
      var last := rules[|rules| - 1];
      var front := MatchingRules(rules[..|rules| - 1], q);
      if Matches(last, q) {
        assert (front + [last])[..|front|] == front;
      } else {
        assert front + [] == front;
      }
    }
  }

  lemma {:induction false} CandidatesCount(matching: seq<Rule>, q: Query, s: Slot)
    requires Terminates(matching, q)
    requires forall r :: r in matching ==> Matches(r, q)
    ensures multiset(Candidates(matching, q))[s] == Copies(matching, s, q)
  {
    if matching != [] {
      var last := matching[|matching| - 1];
      assert last in matching;
      CandidatesCount(matching[..|matching| - 1], q, s);
      GridCounts(RuleStart(last, q), RuleEnd(last, q), q.duration, s);
    }
  }

  lemma {:induction false} AvailableCounts(candidates: seq<Slot>, events: set<CalendarEvent>, bookings: set<Booking>,
                                           q: Query, s: Slot)
    ensures multiset(Available(candidates, events, bookings, q))[s] ==
            if Free(s, events, bookings, q) then multiset(candidates)[s] else 0
  {
    if candidates != [] {
      var front := candidates[..|candidates| - 1];
      AvailableCounts(front, events, bookings, q, s);
      assert candidates == front + [candidates[|candidates| - 1]];
    }
  }

  lemma FilteredCandidatesAnswer(out: seq<Slot>, rules: seq<Rule>, events: set<CalendarEvent>, bookings: set<Booking>,
                                 q: Query)
    requires Terminates(rules, q) && SortedByStart(out)
    requires multiset(out) == multiset(Available(Candidates(MatchingRules(rules, q), q), events, bookings, q))
    ensures Answers(out, rules, events, bookings, q)
  {
    forall s: Slot
      ensures multiset(out)[s] == if Free(s, events, bookings, q) then Copies(rules, s, q) else 0
    {
      AvailableCounts(Candidates(MatchingRules(rules, q), q), events, bookings, q, s);
      CandidatesCount(MatchingRules(rules, q), q, s);
      CopiesOfMatching(rules, q, s);
    }
  }

  /** internal/calendar/slots.go:17-80, with date given in loc as every caller does. */
  method CalculateSlots(rules: seq<Rule>, events: seq<CalendarEvent>, bookings: seq<Booking>, q: Query)
    returns (out: seq<Slot>)
    requires Terminates(rules, q)
    ensures Answers(out, rules, (set e | e in events), (set b | b in bookings), q)
  {
    var matchingRules := CollectMatching(rules, q);
    var candidates := CollectCandidates(matchingRules, q);
    var available := FilterSlots(candidates, events, bookings, q);
    out := SortByStart(available);
    FilteredCandidatesAnswer(out, rules, (set e | e in events), (set b | b in bookings), q);
  }
}
