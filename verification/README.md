# Invito in Dafny

A model of the booking core of Invito and proofs about it. Invito is a booking server: hosts publish event types and weekly
availability, guests book slots, a cache of CalDAV events blocks slots, and its architecture note names one hard invariant,
that a confirmed booking must not double-book (docs/explanation/architecture.md:10).

`dafny verify dfyconfig.toml` checks everything.

## How it is modelled

- Instants and durations are nanosecond counts of type `int`. The three places where a product of a duration can leave 64
  bits, the booking window, the slot length and the days of the picker's list, wrap as Go's `time.Duration` does
  (`Entities.Wrap64`).
- The SQL tables are the fields of the class `Store.Database`, with one method per statement or transaction. Each method
  equates the new fields with a function of the old ones (`Schema`), and the lemmas are about those functions. Bookings are
  never deleted, so a row id is a position.
- Bookings are studied at two granularities. In `Interleaving` a step is one statement: the transaction of CreateBooking, the
  read half or the write half of confirm, reject or sweep, or a statement on another table; halves of any number of operations
  may be in flight, and every write adds its notices to a log (`Decisions`). In `Lifecycle` a step is a whole operation.
  `Lifecycle.RunIsSerialRun` shows that the second machine is the first one without anything between a read and its write,
  and the guarantees of whole operations are derived through it.
- The slot calculator is a set of methods with the source's loops. Its specification `Slots.Answers` says, without mentioning
  the loops, how often each slot occurs in the result. The unstable library sort is a method whose contract promises a sorted
  permutation and no more.
- A time zone is a pair of functions, instant to civil day and civil day with minute to instant, so everything about the
  calculator holds for zones with daylight saving too. Lemmas that say `Fixed` are about zones with a constant offset.
- The token bucket is a library and comes in as an assumption: it starts full, refills at a constant rate up to the burst,
  and charges one token for each admitted request. One token is `cost` units, so rates stay whole numbers. A bucket lives on
  when the map drops it, so entries and waiting requests hold its position, which stands for the pointer; lookup and answer
  of a request are separate steps with clock values of their own.
- Clock values, tokens, parsed iCalendar components, expanded occurrences and server answers are parameters.

| file | subject |
|---|---|
| `Entities.dfy`, `Sequences.dfy` | shared values and small facts |
| `Schema.dfy`, `Store.dfy` | tables, statements, the database class |
| `Interleaving.dfy`, `Decisions.dfy` | bookings, statement by statement: double bookings, permanence, notices |
| `Races.dfy` | two runs that the program can make and in which guarantees fail |
| `Lifecycle.dfy`, `Capacity.dfy`, `Service.dfy` | bookings, operation by operation: guarantees, time taken, the service class |
| `Slots.dfy`, `SlotTheory.dfy` | the slot calculator and what its meaning implies |
| `Public.dfy`, `Availability.dfy` | picker, submission, availability form |
| `Sync.dfy`, `Exdates.dfy`, `ICalText.dfy` | filling the event cache, EXDATE splitting, TEXT escaping |
| `RateLimit.dfy`, `Usernames.dfy` | rate limiter with pruning, username search at login |

## What turned out to be different from the documentation

- Terminal states are not permanent (docs/explanation/booking-flow.md:120). Confirm, reject and sweep read a row and later
  write it without a condition. The exact condition is `Decisions.Overwrites`: a confirm write on REJECTED or CANCELLED, a
  reject write on CONFIRMED or CANCELLED, a sweep write on CONFIRMED or REJECTED. Without such a write every decision stays
  and every guest is told one outcome, and with the first one both end (`Decisions.DecisionsArePermanentExactly`,
  `Decisions.OneOutcomeToldExactly`). Both runs of `Races` contain one, and whole operations never do
  (`Lifecycle.OperationsOverwriteNothing`).
- A host can be double-booked (docs/explanation/architecture.md:10), in two ways. A confirm write lands on a row whose slot was
  given away meanwhile, and two live rows overlap (`Races.InterleavingCanDoubleBook`; exactly when a statement is
  `Interleaving.Harmful`). Or a late sweep takes a confirmed row away, and the slot is confirmed to a second guest without two
  live rows ever overlapping (`Races.LateSweepConfirmsTwice`). A run is free of both, so that nobody is double-booked and
  whoever was told yes keeps the booking, exactly when none of its statements is `Harmful` and none `Revokes` a confirmed row
  (`Decisions.RunIsSoundExactly`).
- The UNIQUE constraint on confirmed bookings (docs/explanation/architecture.md:63) is not in internal/db/schema.sql, and no
  proof uses one.
- A submission computes its date from the text it was sent, which the page writes in UTC, so a slot whose UTC date is not the
  host's date is offered and then refused (`Public.EveningSlotIsRefused`). The availability form stores any text as a time, so
  a rule can also run past midnight, and then a slot is refused although text and host show the same date
  (`Public.AfterMidnightSlotIsRefused`). The exact condition for both is in `Public.OfferedSlotIsBookedExactly`: a rule gives
  the slot on the day that the text shows.
- The date list of the picker leaves out the last, cut-off day of the booking window (`Public.LastDayIsNotListed`; exactly the
  days before it are listed, `Public.DateListIsCompleteExactly` and `Public.OnlyLastDayIsOmitted`).
- The edit form accepts a duration of zero or less, with which the grid loop need not end
  (`Public.EditMakesGridLoopEndless`); `Slots.Terminates` is the exact condition and `Slots.CalculateSlots` requires no more.
- The escaper lets a carriage return through, which is not TEXT in section 3.3.11 of RFC 5545
  (`ICalText.CarriageReturnPasses`; the exact condition is `ICalText.EscapedIsTextExactly`).
- Two different meetings of a server can share a cache key, and then the first is lost (`Sync.KeysCanCollide`).
- The sweep takes `reserved_until <= now`, where docs/explanation/booking-flow.md says `<`; the code is followed.

## Model

| member | source | states |
|---|---|---|
| `Interleaving.DoubleBookingNeedsRaisedRow` | internal/db/bookings.go:30-153 | over every interleaving of creates with the separate reads and writes of confirm, reject and sweep, two overlapping live bookings of one host include a row that a confirm write raised from REJECTED or CANCELLED |
| `Interleaving.ExecKeepsNoDoubleBookingExactly` | internal/db/bookings.go:114-117 | a single statement leaves the hosts free of double bookings if and only if it is not a confirm write on a dead row whose slot a live booking of the host has taken |
| `Interleaving.RunIsSafeExactly` | internal/booking/service.go:54-66 | no two live bookings of a host overlap at any moment of an interleaving if and only if it has no such write; confirmations that were taken away are the subject of `Decisions` |
| `Races.InterleavingCanDoubleBook` | internal/booking/service.go:55-63 | a run from empty tables in which each create follows a check that found the slot offered: confirm and reject of one booking overlap with a second guest's booking, two live rows of the host overlap, and a decision was not permanent |
| `Interleaving.RunKeepsRows` | internal/db/bookings.go:69-80 | over every interleaving rows are never lost, never change interval, event type, guest, token or reservation, and never return to PENDING; event types keep their owner |
| `Interleaving.RunKeepsTokensUnique` | internal/db/schema.sql:67-80 | tokens stay pairwise different |
| `Decisions.DecisionsArePermanentExactly` | docs/explanation/booking-flow.md:104-122 | at every moment of an interleaving the decided rows are as they will be at its end, if and only if no write of it lands on a row decided otherwise |
| `Decisions.ExecKeepsDecisionsExactly` | internal/db/bookings.go:114-153 | one statement leaves all decided rows as they are if and only if it is not such a write |
| `Decisions.RunKeepsLogUp` | internal/booking/service.go:54-174 | over every interleaving each decided booking's status has been told to its guest, and nothing is told of an undecided one |
| `Decisions.OneOutcomeToldExactly` | internal/booking/service.go:54-174 | no guest is told two different outcomes in an interleaving if and only if no write of it lands on a row decided otherwise |
| `Decisions.PromisesApartExactly` | docs/explanation/architecture.md:10 | the bookings whose guests were ever told yes do not overlap, host by host, if and only if no confirm write landed on a booking that overlaps one of them, whatever had become of that one |
| `Decisions.RunIsSoundExactly` | internal/booking/service.go:54-174 | throughout an interleaving live bookings of a host are apart and every confirmed guest's row is CONFIRMED, if and only if no confirm write lands on a dead row whose slot is taken and no reject or sweep write on a CONFIRMED row |
| `Decisions.DependableRunsPromiseOnce` | docs/explanation/architecture.md:10 | where no confirm write lands on a dead row whose slot is taken and no reject or sweep write on a CONFIRMED row, no two guests were ever told yes for overlapping times of one host |
| `Decisions.PermanentDecisionsPromiseOnce` | docs/explanation/architecture.md:10 | the same where no write overwrites a decision |
| `Races.LateSweepConfirmsTwice` | internal/db/bookings.go:119-153 | another such run, in which the sweep reads at its own clock value after the reservation ran out: it writes after a confirm and two guests are told yes for one slot, while at no moment two live rows overlap and no dead row is confirmed |
| `Lifecycle.OperationsOverwriteNothing` | internal/booking/service.go:54-174 | whole operations in any order contain no write on a row decided otherwise |
| `Lifecycle.RunIsSerialRun` | internal/booking/service.go:54-174 | every run of whole operations is the run of their statements one after the other, with nothing left in flight and no row raised |
| `Lifecycle.RunNeverDoubleBooks` | internal/db/bookings.go:53-80 | with whole operations as steps, live bookings of one host never overlap, across all of that host's event types and whatever is edited |
| `Lifecycle.OneOutcomePerBooking` | internal/booking/service.go:54-174 | for every booking the notices sent are none while it is PENDING and otherwise exactly the one decision in its row |
| `Lifecycle.TerminalIsPermanent` | docs/explanation/booking-flow.md:104-122 | with whole operations as steps, no sequence of later ones changes a decided row |
| `Lifecycle.SweepIsExact` | internal/db/bookings.go:119-153 | a sweep cancels and reports exactly the PENDING rows with reserved_until at or before now, touches no other row and leaves none of them |
| `Lifecycle.DecisionIsExact` | internal/booking/service.go:54-63 | a token decides its own booking and no other, only while PENDING; confirm makes it CONFIRMED and reject REJECTED |
| `Capacity.HostIsNeverOverbooked` | internal/db/bookings.go:53-80 | in every state reached by operations the live bookings of a host take at most hi - lo of any range, so those of length d or more inside it number at most (hi - lo) / d |
| `Capacity.ApartFit` | internal/db/bookings.go:53-67 | intervals that pass the overlap test pairwise, clipped to a range, add up to no more than the range |
| `Entities.OverlapIsSharedInstant` | internal/calendar/slots.go:82-89 | the overlap test of all queries and scans is true of two proper intervals if and only if they share an instant |
| `Entities.WeekdaysFollow` | internal/calendar/slots.go:29-35 | weekdays run through 0 to 6 from a Thursday on day 0 |
| `Store.Database.CreateBooking` | internal/db/bookings.go:30-81 | each error exactly when its obstacle is the first in the way, and then nothing changes; otherwise earlier rows stay, the new one is last, has event type, times, guest name, email and note, token and reservation of the request and is PENDING, and its token finds it |
| `Schema.InsertedExactly` | internal/db/bookings.go:30-81 | the same of the statement that interleavings use |
| `Store.Database.ListPendingBookingsInRange` | internal/db/bookings.go:97-112 | returns exactly the live bookings of the user's event types that meet the range |
| `Store.Database.CancelExpiredBookings` | internal/db/bookings.go:119-153 | returns each PENDING row with reserved_until at or before now exactly once, by id and with the columns it had, and cancels those rows and no other |
| `Store.ScanExpired` | internal/db/bookings.go:120-134 | the scan keeps exactly these rows, each with its own columns |
| `Store.Database.ListCalendarEventsForUser` | internal/db/calendars.go:147-170 | returns exactly the events of the user's calendars that meet the range |
| `Store.Database.BulkUpsertCalendarEvents` | internal/db/calendars.go:125-145 | the table after the loop is that of the upserts in order |
| `Store.Database.ReplaceAvailabilityRules` | internal/db/availability.go:35-60 | acts as the ReplaceRules statement of interleavings |
| `Availability.ReplacedExactly` | internal/db/availability.go:35-60 | that statement gives its user the new rules in order and as his own, leaves other users the rules they had, and touches no other table |
| `Schema.EventTypeStatementsAreExact` | internal/db/event_types.go:23-103 | only an owner's edit changes an event type, and only length and window; a toggle flips the active flag of the owner's event type, and a second one undoes it; adding an existing one changes nothing |
| `Schema.AddedAndDeletedExactly` | internal/db/calendars.go:31-105 | a calendar is added with its owner if its id is new and deleted by its owner only; others stay |
| `Service.BookingService.ConfirmBooking` | internal/booking/service.go:54-107 | moves tables and notices as the confirm step of the lifecycle does and returns the row as it then is, or not found |
| `Service.BookingService.RejectBooking` | internal/booking/service.go:109-141 | likewise for reject |
| `Service.BookingService.Collect` | internal/booking/service.go:143-174 | one tick of the loop is the sweep step, with one notice per cancelled row in order, each to the address of that row's guest |
| `Service.BookingService.NotifyAll` | internal/booking/service.go:156-169 | the mails of a tick go to the guests of the rows that were read, one per row in order |
| `Slots.CalculateSlots` | internal/calendar/slots.go:17-80 | the result is sorted by start and holds each slot as often as active rules of the weekday have it on their grid if it starts after now, no later than the window end, and overlaps no event and no live booking, and otherwise not at all |
| `SlotTheory.OfferedMeans` | internal/calendar/slots.go:17-80 | in instants and numbers: a slot is in the result if and only if it starts after now and within the window's days, has the positive length asked for, ends before or starts after every event and every PENDING or CONFIRMED booking, and lies a whole number of lengths after the start of an active rule of the weekday, ending by its end |
| `SlotTheory.FirstSlotOfFreeDay` | internal/calendar/slots.go:42-54 | a free day of a host with the one rule HH:MM to HH:MM and a constant offset starts with a slot at that hour and minute, if it fits |
| `Slots.GridCounts` | internal/calendar/slots.go:48-54 | the grid loop produces each multiple of the duration from the rule start that ends by the rule end exactly once, and nothing else |
| `Slots.GridLength` | internal/calendar/slots.go:48-54 | a rule contributes floor((end - start) / duration) candidates, none if reversed |
| `Slots.GridLoopExitsExactly` | internal/calendar/slots.go:48-52 | the grid loop reaches its exit if and only if the duration is positive or not even the first slot fits |
| `Slots.OverlapsAnyEvent` | internal/calendar/slots.go:82-89 | true if and only if some event overlaps |
| `Slots.OverlapsAnyBooking` | internal/calendar/slots.go:91-101 | true if and only if some live booking overlaps |
| `Slots.ParseInvertsFormat` | internal/calendar/slots.go:103-110 | parsing the HH:MM text of two numbers below 100 gives the numbers |
| `Slots.RuleTimesAreTheirTexts` | internal/calendar/slots.go:42-46 | a rule that says HH:MM starts and ends 60 * HH + MM minutes into its day, and a text of another shape is midnight |
| `Slots.DigitOfCode` | internal/calendar/slots.go:103-110 | a byte from the digit zero on reads as its distance from it, an earlier one wraps at 8 bits |
| `Slots.WindowEndExactly` | internal/calendar/slots.go:27 | the window ends the given number of days ahead if and only if that number is at most 106751 in size |
| `SlotTheory.OfferedExactly` | internal/calendar/slots.go:58-73 | a slot is in a result if and only if it is free and on the grid of a matching rule |
| `SlotTheory.OrderIsIrrelevant` | internal/calendar/slots.go:75-79 | permuting the rules, or the rows of the queries, leaves the returned sequence identical although the sort is unstable |
| `SlotTheory.PrefetchAgrees` | internal/handler/public.go:112-116 | computing from the rows that meet now - 1h to the window end instead of all rows adds exactly the slots that end past the window end and run into a row starting at or after it |
| `SlotTheory.PurgeKeepsSlots` | internal/db/calendars.go:207-212 | dropping events that ended before a bound changes no list computed at that clock value or later |
| `SlotTheory.OfferedAreDisjoint` | internal/calendar/slots.go:41-77 | with one rule per weekday offered slots are strictly increasing and do not overlap |
| `Availability.HandleAvailabilityPost` | internal/handler/dashboard.go:239-267 | stores exactly the complete days of the form, one rule each, and no other user's rules change |
| `Availability.PostIsLocal` | internal/db/availability.go:35-60 | after a post its user has the form's rules and every other user the rules from before |
| `Availability.DashboardSlotsAreDisjoint` | internal/handler/dashboard.go:243-261 | after any sequence of posts by any users the slots offered for a day are strictly increasing and do not overlap |
| `Public.CalculateSlotsFor` | internal/handler/public.go:271-288 | gives the answer for the host's rules and prefetched rows |
| `Public.PickerDates` | internal/handler/public.go:119-127 | lists, in order, the visited days on which something is offered |
| `Public.DatesGrow` | internal/handler/public.go:119-135 | the list is strictly increasing, so its head, the default day, is the earliest day listed |
| `Public.DateListIsCompleteExactly` | internal/handler/public.go:119-127 | with a constant offset and a window that does not wrap, a day is in the list if and only if something is offered on it and it is one of the window's number of days from today on |
| `Public.OnlyLastDayIsOmitted` | internal/handler/public.go:119-127 | with rule times between 00:00 and 24:00 every day on which something is offered lies between today and today plus the window, and all but the last of these are listed |
| `Public.LastDayIsNotListed` | internal/handler/public.go:119-127 | a Thursday host at noon, with a window of seven days: the nine o'clock slot of the next Thursday is offered and that day not listed |
| `Public.EditMakesGridLoopEndless` | internal/handler/dashboard.go:371 | after an edit to duration zero a nine-to-five rule makes the grid loop miss its exit at every step, in any zone of constant offset on any day |
| `Public.HandleBookingSubmit` | internal/handler/public.go:169-226 | not found exactly if the event type is missing, of another host or inactive; slot gone, not created or booked, each exactly in its case; nothing changes on an error; on success the new row has the guest, start, token and length asked for and the reservation time from the second clock value, and its token finds it |
| `Public.FindSlot` | internal/handler/public.go:199-206 | the flag is set if and only if some available slot has the submitted start |
| `Public.CheckThenActIsSafe` | internal/handler/public.go:182-226 | event type, rules, events and bookings are read in four states of any interleaving and the commit comes in a fifth; a committed booking is PENDING, on the grid of the rules as read, of exactly the length that the event type as read gives, after the clock as read and inside the window, and overlaps no event and no live booking of the host at commit |
| `Public.ConflictTestsAgree` | internal/db/bookings.go:37-67 | the joins of CreateBooking are true if and only if the slot calculator's tests on all rows of the host are |
| `Public.PurgeIsUnobservable` | internal/calendar/caldav.go:77 | a purge shows neither in the offered slots at that clock value or later nor in what CreateBooking answers for a start at or after the bound |
| `Public.PurgeStaysUnobservable` | internal/calendar/caldav.go:77 | whatever statements follow a purge, with creates starting at the bound or later, bookings, writes in flight and notices are those of the run without it, and so are the offered slots at that clock value or later |
| `Public.CheckPassesExactly` | internal/handler/public.go:197-206 | the check of a submission finds an offered slot if and only if some rule gives that slot on the day the text shows; with rule times between 00:00 and 24:00, if and only if the text shows the host's date |
| `Public.OfferedSlotIsBookedExactly` | internal/handler/public.go:188-226 | an offered slot submitted at once is booked if and only if some rule gives it on the day its text shows, no row that was not fetched is in its way, and the token is new; with rule times between 00:00 and 24:00 the first is that the text shows the host's date |
| `Public.EveningSlotIsRefused` | internal/handler/public.go:198 | at UTC-8 the slot at 16:00 is offered and its submission refused |
| `Public.AfterMidnightSlotIsRefused` | internal/handler/dashboard.go:243-261 | a host in UTC with the rule 24:30 to 25:30 offers half past midnight and refuses it, although text and host show the same date |
| `Sync.UpsertVEVENT` | internal/calendar/caldav.go:227-254 | upserts at most one row, under the UID or UID/RECURRENCE-ID, and nothing without UID or start |
| `Sync.ExpandAndUpsertRRULE` | internal/calendar/caldav.go:256-295 | upserts one row per occurrence, or the master alone if the rule is unreadable; if the stamps differ, afterwards an event of the calendar takes place at every occurrence, as long as the master or for one hour |
| `Sync.RowKeyAdds` | internal/calendar/caldav.go:227-295 | a row's key is the UID, UID/RECURRENCE-ID, or UID~stamp of an occurrence, in its calendar and with its summary |
| `Sync.SyncPath` | internal/calendar/caldav.go:158-225 | upserts the rows of all non-transparent events of the delivered objects in order |
| `Sync.SyncCalendar` | internal/calendar/caldav.go:37-79 | stops at the first failing path keeping what is stored, and purges only after discovery with every path answered |
| `Sync.SyncIsSerialRun` | internal/calendar/caldav.go:37-79 | the sync as one step is the run of its upserts and its purge with nothing in between |
| `Sync.StoredExactly` | internal/calendar/caldav.go:37-79 | after any sync an upserted row is stored as delivered if and only if none upserted later under its key differs and, where a completed discovery sync purged, it does not end before the purge bound |
| `Sync.CacheExactly` | internal/calendar/caldav.go:70-78 | the cache after any sync, key by key: the last delivered event or else the one from before, less what a purge of this calendar takes; what vanished upstream stays |
| `Sync.FailingPathEndsSync` | internal/calendar/caldav.go:70-75 | of a sync with a failing path exactly the busy times of the paths before it are upserted |
| `Sync.SyncRowsAreBusyTimes` | internal/calendar/caldav.go:199-295 | a successful sync upserts a row for a time if and only if a delivered non-transparent event with UID and start, or an occurrence of one, takes place then |
| `Sync.DeliveredEventsBlockSlots` | internal/calendar/caldav.go:195-225 | with pairwise distinct keys, after any run that contains the statements of a successful sync among others that neither delete the calendar, nor store another event under a delivered key, nor purge what has not ended, no slot offered that ends by the window end overlaps a time at which a delivered component keeps the host busy |
| `Sync.ToldApartKeysDiffer` | internal/calendar/caldav.go:227-295 | all keys of a sync differ if UID and RECURRENCE-ID tell its opaque events apart, UIDs contain neither ~ nor /, and the stamps of each rule differ |
| `Sync.WellNamedEventsBlockSlots` | internal/calendar/caldav.go:195-295 | the blocking of slots under that condition on what the server delivers |
| `Sync.SyncTwiceIsSyncOnce` | internal/db/calendars.go:112-145 | repeating a sync changes nothing |
| `Sync.OtherCalendarsUntouched` | internal/db/calendars.go:207-212 | rows of other calendars are the same before and after |
| `Sync.KeysCanCollide` | internal/calendar/caldav.go:234-237 | UID a/b and UID a with RECURRENCE-ID b end up in one row, the later |
| `Exdates.Component.SplitMultiValueEXDATEs` | internal/calendar/caldav.go:318-344 | only the EXDATE list changes, and it becomes that of `Exdates.SplitExdatesExactly` |
| `Exdates.SplitExdatesExactly` | internal/calendar/caldav.go:318-344 | properties whose values are written as comma-free pieces joined by commas become, if one has a comma, one property for each piece that is not blank, trimmed, in order and under the name and parameters of its source, and otherwise stay as they are |
| `Exdates.TrimSpaceExactly` | internal/calendar/caldav.go:337 | trimming takes away the space around a text and nothing else |
| `Exdates.SplittingKeepsMeaning` | internal/calendar/caldav.go:318-344 | the excluded dates are the same in the same order, no value keeps a comma, each keeps the name and parameters of its source, and a second application changes nothing |
| `Exdates.SplitIsBetweenCommas` | internal/calendar/caldav.go:335 | the pieces have no comma and joined by commas give the value back |
| `Exdates.SplitInvertsJoined` | internal/calendar/caldav.go:335 | comma-free pieces joined by commas are the pieces found |
| `ICalText.EscapeIsOnePass` | internal/calendar/caldav.go:408-414 | the four successive replacements equal escaping every character once |
| `ICalText.EscapeRoundTrip` | internal/calendar/caldav.go:408-414 | reading by section 3.3.11 of RFC 5545 gives every text back |
| `ICalText.EscapedIsTextExactly` | internal/calendar/caldav.go:408-414 | the escaped text is free of control characters if and only if the text has none besides tab and line feed |
| `ICalText.CarriageReturnPasses` | internal/calendar/caldav.go:408-414 | the escaped form of a note with a carriage return still has it |
| `ICalText.BuildDescription` | internal/calendar/caldav.go:394-406 | the description reads back as the lines "Guest: " and the name, "Email: " and the address, then the note and the message unless empty |
| `RateLimit.RateLimiter.GetLimiter` | internal/middleware/ratelimit.go:46-56 | a known client keeps its bucket and a new one gets a full bucket, and the time of the lookup is noted |
| `RateLimit.RateLimiter.AllowRequest` | internal/middleware/ratelimit.go:64 | the bucket found by the lookup, and no other, is charged for the answer, at a clock value of its own |
| `RateLimit.RateLimiter.Admit` | internal/middleware/ratelimit.go:58-66 | the two steps with nothing in between are lookup and answer of the limiter machine |
| `RateLimit.RateLimiter.PruneIdle` | internal/middleware/ratelimit.go:36-40 | keeps exactly the clients seen within the last five minutes, unchanged |
| `RateLimit.PruningIsUnobservableExactly` | internal/middleware/ratelimit.go:27-56 | for every trace of lookups, answers and pruning passes in any order, with answers at most a delay of up to five minutes after their lookup, the answers are those of a limiter that never prunes, if and only if a bucket refills completely within the silence that pruning waits for less the delay |
| `RateLimit.AdmissionBound` | internal/middleware/ratelimit.go:46-66 | under that condition, after any history, in any interval of length T a client has at most burst + rate * T requests admitted, over dropped and recreated entries and with requests under way |
| `RateLimit.BookingLimitHolds` | cmd/invito/main.go:68-74 | the configured limiter, shared by both muxes, may prune as long as no request waits for more than four and a half minutes, and admits at most five requests and one more per six seconds |
| `Usernames.ParseInvertsDecimal` | internal/handler/auth.go:75 | the decimal suffix determines its number and has no leading zero |
| `Usernames.TriesAreBounded` | internal/handler/auth.go:60-76 | n successive candidates held by others need n other users |
| `Usernames.ChooseUsername` | internal/handler/auth.go:60-76 | each lookup reads the table anew while other logins add users; ends within one more try than there are other users at the last lookup, with a candidate that is free or the subject's own then, all earlier ones having been taken at their lookups |
| `Usernames.TriesAreBoundedWhileGrowing` | internal/handler/auth.go:60-76 | n candidates taken at n lookups of a growing table need n other users in it at the next lookup |
| `Usernames.UserTable.Login` | internal/handler/auth.go:60-82 | subjects and usernames stay unique, a known subject leaves the table as it was, an unknown one adds exactly one user under the first candidate nobody else holds, which is the base itself if nobody else holds that |
| `Usernames.TakenExactly` | internal/handler/auth.go:62-73 | in a table with unique names a name is taken if and only if a user of another subject has it |
| `Usernames.RacingInsertFailsExactly` | internal/db/users.go:29-39 | with other logins between search and insert, the insert fails if and only if one of them took the name and none was of the same subject; otherwise subjects and names stay unique |

## Left out

- Public.HandleBookingSubmit: runs without interruption; `Public.CheckThenActIsSafe` is the statement with other steps between its reads and its commit.
- RateLimit.PruningIsUnobservableExactly: covers requests that wait for up to five minutes between lookup and answer; one that waits longer may be charged to a bucket that the map has dropped.
- Slots.CalculateSlots: takes the date in the host's zone, as every caller passes it; a date in another zone could have another weekday.
- Usernames.UserTable.Login: search and insert run without another login in between; `Usernames.ChooseUsername` by itself allows logins between the lookups and `Usernames.RacingInsertFailsExactly` before the insert.
- Usernames.ChooseUsername: users are added and not renamed during the search; with renames a candidate can become free behind it, and nothing is claimed about the number of tries.
- Confirm and reject in flight at a crash: a half-finished operation is one whose write never comes.
- HTTP, templates, cookies, OIDC, CSRF, logging and configuration: no state that the properties depend on.
- Mail and CalDAV write-back: a notice in a log stands for the mail of a decision to the guest, whose address the service records; the host's copy, delivery failures and the PUT are not modelled.
- Database errors, WAL, foreign keys and the text form of timestamps: statements succeed and instants compare as numbers; no proof rests on cascading deletion.
- Parsing of iCalendar, expansion of recurrence rules and the formatting of an occurrence: the results are inputs. Overriding an expanded instance and the defaults for DTEND and DURATION of section 3.6.1 of RFC 5545 are not claimed, since the code always uses one hour.
- `synced_at`, row ids of the event cache and event fields that no query reads.
- Zones with a changing offset in the picker's date list, and zones with a change of the offset at midnight where the answer names the host's date (`Public.CivilDays`).
- SUMMARY in the written-back event, which the code does not escape.
- Slugs, list views, counts and the profile form: they would only add easy members.
