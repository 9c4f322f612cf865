/** What follows from the meaning of a slot list, whichever list was computed. */
module SlotTheory {
  import opened Entities
  import opened Schema
  import opened Slots
  import opened Sequences

  lemma CopiesPositive(rules: seq<Rule>, s: Slot, q: Query)
    ensures Copies(rules, s, q) > 0 <==> exists r :: r in rules && RuleGives(r, s, q)
  {
    CountPositive(rules, Gives(s, q));
    if r :| r in rules && RuleGives(r, s, q) {
      assert Gives(s, q)(r);
    }
  }

  /** A slot is offered exactly when it is free and some matching rule has it on its grid. */
  lemma OfferedExactly(out: seq<Slot>, rules: seq<Rule>, events: set<CalendarEvent>, bookings: set<Booking>, q: Query,
                       s: Slot)
    requires Answers(out, rules, events, bookings, q)
    ensures s in out <==> Free(s, events, bookings, q) && exists r :: r in rules && RuleGives(r, s, q)
  {
    CopiesPositive(rules, s, q);
    assert s in out <==> multiset(out)[s] > 0;
  }

  /** k steps of length d after lo. */
  predicate IsStep(k: nat, start: int, lo: int, d: int) {
    start == lo + k * d
  }

  lemma MultipleHasNoRest(k: int, d: int)
    requires d > 0
    ensures (k * d) % d == 0
  {
    var x := k * d;
    var q := x / d - k;
    assert x == (x / d) * d + x % d;
    assert q * d == -(x % d);
    MultiplesAreApart(q, d);
  }

  lemma GridIsSteps(s: Slot, lo: int, hi: int, d: int)
    requires d > 0
    ensures OnGrid(s, lo, hi, d) <==>
            s.end == s.start + d && s.end <= hi && exists k: nat :: IsStep(k, s.start, lo, d)
  {
    if OnGrid(s, lo, hi, d) {
      var k: nat := (s.start - lo) / d;
      assert s.start - lo == k * d;
      assert IsStep(k, s.start, lo, d);
    }
    if k: nat :| IsStep(k, s.start, lo, d) {
      MulGrows(k, d);
      MultipleHasNoRest(k, d);
    }
  }

  /** The rule, active and of the day's weekday, has the slot a number of whole lengths after its start. */
  ghost predicate InRule(r: Rule, s: Slot, q: Query) {
    && r.active && r.weekday == (q.loc.dayOf(q.date) + 4) % 7
    && (exists k: nat :: IsStep(k, s.start, q.loc.at(q.loc.dayOf(q.date), MinuteOfDay(r.startTime)), q.duration))
    && s.end <= q.loc.at(q.loc.dayOf(q.date), MinuteOfDay(r.endTime))
  }

  lemma RulesThatGive(rules: seq<Rule>, s: Slot, q: Query)
    ensures (exists r :: r in rules && RuleGives(r, s, q)) <==>
            0 < q.duration == s.end - s.start && exists r :: r in rules && InRule(r, s, q)
  {
    forall r | r in rules && q.duration > 0 && s.end == s.start + q.duration ensures RuleGives(r, s, q) <==>
                                                                                     InRule(r, s, q) {
      GridIsSteps(s, RuleStart(r, q), RuleEnd(r, q), q.duration);
    }
  }

  /**
    * What the calculator answers, in the words of its description: a slot is offered exactly when it starts after the
    * clock and within the window, has the length of the event type, meets no event and no pending or confirmed booking,
    * and lies back to back after the start of an active rule of the weekday, inside the rule.
    */
  lemma OfferedMeans(out: seq<Slot>, rules: seq<Rule>, events: set<CalendarEvent>, bookings: set<Booking>, q: Query,
                     s: Slot)
    requires Answers(out, rules, events, bookings, q) && -MAX_WINDOW_DAYS <= q.bookingWindowDays <= MAX_WINDOW_DAYS
    ensures s in out <==>
            && q.now < s.start <= q.now + q.bookingWindowDays * DAY
            && 0 < q.duration == s.end - s.start
            && (forall e :: e in events ==> e.endAt <= s.start || s.end <= e.startAt)
            && (forall b :: b in bookings && b.status in {Pending, Confirmed} ==>
                              b.endAt <= s.start || s.end <= b.startAt)
            && exists r :: r in rules && InRule(r, s, q)
  {
    OfferedExactly(out, rules, events, bookings, q, s);
    WindowEndExactly(q.now, q.bookingWindowDays);
    RulesThatGive(rules, s, q);
  }

  // ---------- The first slot of a free day ----------

  /** Where nothing is booked, the first slot of the only rule is the first of the list, if it fits. */
  lemma FirstSlotOfRule(out: seq<Slot>, r: Rule, q: Query)
    requires Answers(out, [r], {}, {}, q) && Matches(r, q) && q.duration > 0
    requires RuleStart(r, q) + q.duration <= RuleEnd(r, q) && InWindow(Slot(RuleStart(r, q), 0), q)
    ensures |out| > 0 && out[0] == Slot(RuleStart(r, q), RuleStart(r, q) + q.duration)
  {
    var first := Slot(RuleStart(r, q), RuleStart(r, q) + q.duration);
    assert RuleGives(r, first, q);
    OfferedExactly(out, [r], {}, {}, q, first);
    var i :| 0 <= i < |out| && out[i] == first;
    OfferedExactly(out, [r], {}, {}, q, out[0]);
    assert first.start <= out[0].start <= out[i].start;
  }

  /**
    * In a zone of constant offset a free day starts with a slot at the hour and minute that the rule says, if it fits
    * into the rule and the window.
    */
  lemma FirstSlotOfFreeDay(out: seq<Slot>, r: Rule, q: Query, offset: int, day: int, h: int, m: int, h': int, m': int)
    requires 0 <= h < 100 && 0 <= m < 100 && r.startTime == FormatHHMM(h, m)
    requires 0 <= h' < 100 && 0 <= m' < 100 && r.endTime == FormatHHMM(h', m')
    requires q.loc == Fixed(offset) && q.date == FixedAt(offset, day, 0) && r.active && r.weekday == WeekdayOf(day)
    requires Answers(out, [r], {}, {}, q) && 0 < q.duration <= (h' - h) * HOUR + (m' - m) * MINUTE
    requires var start := day * DAY + h * HOUR + m * MINUTE - offset;
             q.now < start <= WindowEnd(q.now, q.bookingWindowDays)
    ensures var start := day * DAY + h * HOUR + m * MINUTE - offset;
            |out| > 0 && out[0] == Slot(start, start + q.duration)
  {
    RuleTimesInFixedZone(r, q, offset, day, h, m);
    RuleTimesInFixedZone(r, q, offset, day, h', m');
    DayInFixedZone(q, offset, day);
    FirstSlotOfRule(out, r, q);
  }

  // ---------- Order independence ----------

  ghost predicate AllLast(slots: seq<Slot>, d: int) {
    forall s :: s in slots ==> s.end == s.start + d
  }

  lemma SameHead(a: seq<Slot>, b: seq<Slot>, d: int)
    requires SortedByStart(a) && SortedByStart(b) && AllLast(a, d)
    requires multiset(a) == multiset(b) && a != [] && b != []
    ensures a[0] == b[0]
  {
    assert a[0] in multiset(b) && b[0] in multiset(a);
    var i :| 0 <= i < |b| && b[i] == a[0];
    var j :| 0 <= j < |a| && a[j] == b[0];
    assert b[0].start <= b[i].start && a[0].start <= a[j].start;
    assert a[j].end == a[j].start + d && a[0].end == a[0].start + d;
  }

  lemma TailKeeps(a: seq<Slot>, d: int)
    requires SortedByStart(a) && a != []
    ensures SortedByStart(a[1..]) && (AllLast(a, d) ==> AllLast(a[1..], d))
  {
  }

  /** Among slots of one length, being sorted by start leaves no freedom. */
  lemma {:induction false} SortedIsUnique(a: seq<Slot>, b: seq<Slot>, d: int)
    requires SortedByStart(a) && SortedByStart(b) && AllLast(a, d)
    requires multiset(a) == multiset(b)
    ensures a == b
    decreases |a|
  {
    SameSize(a, b);
    if a != [] {
      SameHead(a, b, d);
      TailsAgree(a, b);
      TailKeeps(a, d);
      TailKeeps(b, d);
      SortedIsUnique(a[1..], b[1..], d);
      assert a == [a[0]] + a[1..] && b == [b[0]] + b[1..];
    }
  }

  lemma OfferedLast(out: seq<Slot>, rules: seq<Rule>, events: set<CalendarEvent>, bookings: set<Booking>, q: Query)
    requires Answers(out, rules, events, bookings, q)
    ensures AllLast(out, q.duration)
  {
    forall s | s in out ensures s.end == s.start + q.duration {
      OfferedExactly(out, rules, events, bookings, q, s);
    }
  }

  /**
    * The slot list is a function of the multiset of rules and of the sets of events and bookings,
    * although the sort is unstable and the queries fix no row order.
    */
  lemma OrderIsIrrelevant(a: seq<Slot>, b: seq<Slot>, rules: seq<Rule>, permuted: seq<Rule>,
                          events: set<CalendarEvent>, bookings: set<Booking>, q: Query)
    requires multiset(rules) == multiset(permuted)
    requires Answers(a, rules, events, bookings, q) && Answers(b, permuted, events, bookings, q)
    ensures a == b
  {
    forall s: Slot ensures multiset(a)[s] == multiset(b)[s] {
      CountOfPermutation(rules, permuted, Gives(s, q));
    }
    assert multiset(a) == multiset(b);
    OfferedLast(a, rules, events, bookings, q);
    SortedIsUnique(a, b, q.duration);
  }

  // ---------- The range-limited queries that feed the calculator ----------

  ghost predicate HiddenConflict(s: Slot, events: set<CalendarEvent>, bookings: set<Booking>, to: int) {
    || EventBusy(s, set e | e in events && e.startAt >= to)
    || BookingBusy(s, set b | b in bookings && b.startAt >= to)
  }

  lemma PrefetchSees(s: Slot, events: set<CalendarEvent>, bookings: set<Booking>, q: Query)
    requires InWindow(s, q)
    ensures var from, to := q.now - HOUR, WindowEnd(q.now, q.bookingWindowDays);
            (Free(s, events, bookings, q) <==>
             && Free(s, EventsBetween(events, from, to), BookingsBetween(bookings, from, to), q)
             && !HiddenConflict(s, events, bookings, to))
  {
  }

  /**
    * The list computed from the prefetched rows against the list computed from the full tables: it has every slot of
    * the latter, and the extra ones are exactly those that end past the window end and run into a row starting there.
    */
  lemma PrefetchAgrees(fetched: seq<Slot>, exact: seq<Slot>, rules: seq<Rule>,
                       events: set<CalendarEvent>, bookings: set<Booking>, q: Query, s: Slot)
    requires var from, to := q.now - HOUR, WindowEnd(q.now, q.bookingWindowDays);
             Answers(fetched, rules, EventsBetween(events, from, to), BookingsBetween(bookings, from, to), q)
    requires Answers(exact, rules, events, bookings, q)
    ensures var to := WindowEnd(q.now, q.bookingWindowDays);
            && multiset(exact)[s] == (if HiddenConflict(s, events, bookings, to) then 0 else multiset(fetched)[s])
            && (HiddenConflict(s, events, bookings, to) ==> s.end > to)
  {
  }

  // ---------- Purging ----------

  /** kept is events less some that ended before the bound. */
  ghost predicate PurgedOf(kept: set<CalendarEvent>, events: set<CalendarEvent>, before: int) {
    kept <= events && forall e :: e in events && e !in kept ==> e.endAt < before
  }

  lemma PurgeUnseen(kept: set<CalendarEvent>, events: set<CalendarEvent>, before: int, s: Slot)
    requires PurgedOf(kept, events, before) && s.start >= before
    ensures EventBusy(s, kept) <==> EventBusy(s, events)
  {
  }

  /** No slot list computed at the clock value of the bound or later tells whether the purge happened. */
  lemma PurgeKeepsSlots(a: seq<Slot>, b: seq<Slot>, rules: seq<Rule>, kept: set<CalendarEvent>,
                        events: set<CalendarEvent>, bookings: set<Booking>, before: int, q: Query)
    requires PurgedOf(kept, events, before) && before <= q.now
    requires Answers(a, rules, kept, bookings, q) && Answers(b, rules, events, bookings, q)
    ensures a == b
  {
    forall s: Slot ensures multiset(a)[s] == multiset(b)[s] {
      if InWindow(s, q) {
        PurgeUnseen(kept, events, before, s);
      }
    }
    assert multiset(a) == multiset(b);
    OfferedLast(a, rules, kept, bookings, q);
    SortedIsUnique(a, b, q.duration);
  }

  // ---------- One rule per weekday ----------

  ghost predicate OneRulePerWeekday(rules: seq<Rule>) {
    forall i, j :: 0 <= i < j < |rules| ==> rules[i].weekday != rules[j].weekday
  }

  lemma {:induction false} CopiesAtMostOne(rules: seq<Rule>, s: Slot, q: Query)
    requires OneRulePerWeekday(rules)
    ensures Copies(rules, s, q) <= 1
  {
    if rules != [] {
      var front, last := rules[..|rules| - 1], rules[|rules| - 1];
      assert OneRulePerWeekday(front);
      CopiesAtMostOne(front, s, q);
      CopiesPositive(front, s, q);
    }
  }

  lemma OneGrid(rules: seq<Rule>, r: Rule, r': Rule, q: Query)
    requires OneRulePerWeekday(rules) && r in rules && r' in rules && Matches(r, q) && Matches(r', q)
    ensures r == r'
  {
  }

  lemma GridApart(s: Slot, t: Slot, lo: int, hi: int, d: int)
    requires OnGrid(s, lo, hi, d) && OnGrid(t, lo, hi, d) && s.start < t.start
    ensures s.end <= t.start
  {
    var a, b := (s.start - lo) / d, (t.start - lo) / d;
    assert s.start - lo == a * d && t.start - lo == b * d;
    assert (b - a) * d == t.start - s.start;
    MultiplesAreApart(b - a, d);
  }

  lemma GivenAreApart(rules: seq<Rule>, s: Slot, t: Slot, q: Query)
    requires OneRulePerWeekday(rules) && s.start <= t.start && s != t
    requires exists r :: r in rules && RuleGives(r, s, q)
    requires exists r :: r in rules && RuleGives(r, t, q)
    ensures s.end <= t.start
  {
    var r :| r in rules && RuleGives(r, s, q);
    var r' :| r' in rules && RuleGives(r', t, q);
    OneGrid(rules, r, r', q);
    GridApart(s, t, RuleStart(r, q), RuleEnd(r, q), q.duration);
  }

  lemma OfferedOnce(out: seq<Slot>, rules: seq<Rule>, events: set<CalendarEvent>, bookings: set<Booking>, q: Query,
                    i: nat, j: nat)
    requires OneRulePerWeekday(rules) && Answers(out, rules, events, bookings, q) && i < j < |out|
    ensures out[i] != out[j]
  {
    CopiesAtMostOne(rules, out[i], q);
    if out[i] == out[j] {
      TwiceCountsTwo(out, i, j);
      assert false;
    }
  }

  /** With one rule per weekday the offered slots follow one another without overlapping. */
  lemma OfferedAreDisjoint(out: seq<Slot>, rules: seq<Rule>, events: set<CalendarEvent>, bookings: set<Booking>,
                           q: Query)
    requires OneRulePerWeekday(rules) && Answers(out, rules, events, bookings, q)
    ensures forall i :: 0 <= i < |out| ==> out[i].start < out[i].end
    ensures forall i, j :: 0 <= i < j < |out| ==> out[i].end <= out[j].start
  {
    forall i | 0 <= i < |out| ensures out[i].start < out[i].end {
      OfferedExactly(out, rules, events, bookings, q, out[i]);
    }
    forall i, j | 0 <= i < j < |out| ensures out[i].end <= out[j].start {
      OfferedExactly(out, rules, events, bookings, q, out[i]);
      OfferedExactly(out, rules, events, bookings, q, out[j]);
      OfferedOnce(out, rules, events, bookings, q, i, j);
      GivenAreApart(rules, out[i], out[j], q);
    }
  }
}
