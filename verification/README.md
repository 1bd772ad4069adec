# A verified model of the tvpvrd recording scheduler

tvpvrd is a recorder daemon for servers with several TV capture cards. For each
card it keeps a queue of pending recordings and at most one ongoing recording. A
client asks for a single recording or for a series: daily, weekly, monthly, or on
a range of weekdays. A series is unrolled into dated entries with calendar
arithmetic, and nothing is accepted that would record two things on one card at
the same moment. A tick every few seconds begins the recording at the head of each
queue, or gives it up when it is more than ten minutes late. The schedule is saved
with one record for a whole series and rebuilt at start-up by putting each record
on the first card that will have it; ongoing recordings are not saved.

The modules, lowest first:

- `Calendar`: civil time and timestamps. `mktime` is modelled by the normalisation
  of section 7.23.2.3 of ISO/IEC 9899:1999 and the seconds formula of section 4.16
  of the POSIX.1-2017 Base Definitions, at a fixed but arbitrary distance from UTC.
- `Recurrence`: repeat types, the step to the next date, the first date.
- `Series`: lengths and disjointness of all the dates of a series.
- `Schedule`: the schedule as a value, and what each operation makes of it.
- `Scheduler`: the same operations in place, on a class `Table` with the flat array
  of slots, the counts, the ongoing recordings, the counters and the exclusion
  table. Every method is proved to do what its operation in `Schedule` says.
- `Booking`, `Ledger`, `Punctual`, `Episodes`: what holds of every run. A run is any
  sequence of the critical sections under `recs_mutex` (adding, deleting, ticks,
  ends of recordings), in any order and at any times.
- `Effects`: what a tick begins and gives up, and what inserting and deleting answer,
  told by times and sequence numbers alone.
- `Database`, `Storage`: the saved file as a list of records; the writer and the
  reader, as functions and as loops over the tables.
- `SeriesRecord`, `Reloading`: a series and its one record; what reading a file makes.
- `KeptSeries`, `Counting`: what holds of series through restarts as well, and how
  recordings are counted before and after one.
- `Returning`, `Fitting`, `SecondReload`, `Restarts`: when a restart leaves everything
  as it was, told by the records and by the schedule; episode numbers through one
  restart and two; work and restarts in turn.
- `MovedDates`, `Gaps`: the two places where the code departs from the obvious, and
  exactly when.
- `Months`: monthly series from any day of the month.
- `RepeatCount`, `AddCommand`, `Shutdown`, `Daemon`: the repeat count from an end
  date, the add command, the decision to switch the server off, and runs carried out
  on the tables.
- `UrlCoding`, `Template`: percent coding and key substitution over buffers.

## Where the code does something else than one would think

- Collisions are looked for at the dates asked for, before the first date is moved
  out of the past or to an admissible weekday. The two lists of dates agree exactly
  when the first date is neither past nor inadmissible
  (`Recurrence.AdjustedIsIdentity`), and then no card is booked twice
  (`Booking.NoDoubleBooking`). In general none is exactly when every entry is free at
  the date it is stored at (`MovedDates.InsertIsExact`, and
  `MovedDates.NeverBookedTwiceExactly` for whole runs). Of a daily or weekday series
  only the last date goes untested (`MovedDates.OnlyLastUntested`). A card is booked
  twice by a request for Monday to Friday made on a Saturday
  (`MovedDates.SaturdayRequest`), and by the reader when an episode was due while the
  daemon was down (`MovedDates.PastDateAtStart`).
- A weekly series whose first date has gone by is moved by one day, not by a week, and
  stays on the wrong weekday (`Recurrence.WeekdayAfterMove`).
- An excluded episode does not use up a date, so behind a gap every episode of a
  reloaded series comes too early (`Episodes.GapShiftsDates`). A schedule whose records
  fit their cards again comes through a restart unchanged exactly when no episode is
  pending behind a deleted one (`Returning.ReloadIsExact`); when only the last episodes
  of series are deleted, it is enough that their dates are free and that there is room
  for their numbers (`Fitting.RoomyIsSaveable`).
- A recording booked among the dates of a series with deleted episodes is there after a
  restart exactly when it is apart from the dates that the series is then given, and
  finds room (`Gaps.SingleAmongSeries`). In the slot of a deleted episode it can be lost
  (`Gaps.DeletedSlotTaken`).
- Excluded numbers read from the file do not get into the exclusion table, so a gap
  lasts for one restart (`SecondReload.FirstReloadKeepsNumbers`) and is filled by the
  second (`SecondReload.SecondReloadBringsAll`).
- A single recording accepted on a full queue is reported as stored but lost
  (`Booking.AcceptedYetLost`); so a restart can lose one that was pending on another
  card (`Fitting.FullCardLoses`).
- A monthly recording across the end of a month can end before it starts
  (`Series.MonthEndInverts`): exactly when the month it ends in is the shorter one
  (`Series.InvertsExactly`).
- The record that `get_nextsched_rec` hands out can be that of another card than the
  one it names (`Shutdown.RecordIsReported`); its time and card are right.
- The server switches off without a wake-up time when its clock cannot be set,
  although the log says that this disables switching off (`Shutdown.SwitchOffIsSafe`).
- A repeat count from an end date is one short for a series that begins today, when
  today is one of the days of a daily or weekday series, or the end date is one of the
  days of a weekly or monthly one (`RepeatCount.TodayIsMissed`). In the same cases,
  counted from the present time, it is one too many for a start time already gone by
  (`RepeatCount.MovedToTomorrow`).
- The command counts again from a given start date only if an end time is given too.
  With a start date alone the count from the present time is kept: a series that begins
  with a later one of the dates counted runs past its end date by as many dates as it
  passed over (`RepeatCount.LaterStart`, `RepeatCount.LaterDaily`).
- A series of no occurrences, which such a count can come to, ends the program
  (`Schedule.NoOccurrencesEnd`).
- The command accepts a recording whose end is its start; the reader drops it as
  corrupt, and so it does one that a monthly step has turned around
  (`Database.NoLengthIsIgnored`).

## Model

| member | source | states |
|---|---|---|
| Calendar.TimestampRoundTrip | src/datetimeutil.c:71-90 | A timestamp turned into civil time and back is the same, for every integer |
| Calendar.CivilRoundTrip | src/datetimeutil.c:41-65 | Every valid civil time, under all leap-year rules, survives the trip through a timestamp |
| Calendar.DaysAreLinear | src/datetimeutil.c:48-56 | A day number beyond the end of its month, however far in either direction, carries over day by day |
| Calendar.MonthsCarry | src/datetimeutil.c:48-56 | Twelve months more are a year more, any number of times in either direction |
| Calendar.MonthStep | src/datetimeutil.c:352-356 | One month more moves a time by as many days as its present month has |
| Calendar.LengthsOfMonths | src/datetimeutil.c:48-56 | Months have 31 and 30 days in turn, 31 twice in the middle, and February 29 in every fourth year, of the hundredth ones only in every fourth |
| Calendar.DayLater | src/datetimeutil.c:71-90 | The conversion agrees with the rule-by-rule calendar: one day later is the date that follows |
| Calendar.Epoch | src/datetimeutil.c:48-56 | The day count begins on the first of January 1970 |
| Calendar.EpochWeekday | src/datetimeutil.c:358-371 | And that was a Thursday |
| Calendar.WeekdayLater | src/datetimeutil.c:358-371 | The weekday k days later is k weekdays further on, modulo seven |
| Recurrence.IncRecDays | src/datetimeutil.c:327-481 | The step computes the next occurrence and its civil fields, refuses unknown types, and exits exactly when a date would be negative |
| Recurrence.StepToWeekday | src/datetimeutil.c:358-452 | The search loop of the weekday types terminates, having moved start and end by the distance to the next admissible weekday |
| Recurrence.StepIsLeast | src/datetimeutil.c:358-452 | A weekday step lands on an admissible day and passes over none |
| Recurrence.WeekdaySteps | src/datetimeutil.c:358-452 | By how many days each of the six types steps from each day of the week, in numbers |
| Recurrence.NoDaySkipped | src/datetimeutil.c:358-452 | Every admissible day after the first date is a date of the series |
| Recurrence.WeekCycle | src/datetimeutil.c:358-452 | As many steps as a type has weekdays advance by exactly seven days |
| Recurrence.NthLater | src/datetimeutil.c:334-459 | For all types 1 to 9 the n-th date is at least n days after the first |
| Recurrence.NthAdmissible | src/datetimeutil.c:358-452 | A series that begins on an admissible weekday stays on admissible weekdays |
| Recurrence.ClockIsKept | src/datetimeutil.c:461-480 | No repeat type, for any number of steps, changes the time of day of start or end |
| Recurrence.WeeklyKeepsWeekday | src/datetimeutil.c:346-350 | A weekly series stays on its weekday |
| Recurrence.LengthAfterStep | src/datetimeutil.c:340-356 | A step keeps the length; a monthly one changes it by the difference of the lengths of the months of end and start |
| Recurrence.AdjustInitialRepeatDate | src/datetimeutil.c:180-319 | The case table yields the first admissible date from the start on, or from a day after a past start |
| Recurrence.DaysFromTable | src/datetimeutil.c:202-313 | Each entry of the table is the least number of days to an admissible weekday, today counting |
| Recurrence.AdjustedIsIdentity | src/datetimeutil.c:193-200 | The first date is left alone exactly when it is neither past nor inadmissible |
| Recurrence.AdjustedIsStep | src/datetimeutil.c:202-313 | A date that is not past but inadmissible goes where one step of the search loop would take it |
| Recurrence.AdjustedIsNext | src/datetimeutil.c:193-316 | A daily or weekday series whose first date is moved at all begins where one step would take it |
| Recurrence.AdjustedTwice | src/datetimeutil.c:193-316 | Adjusting again changes nothing exactly when the adjusted date is no longer past |
| Recurrence.WeekdayAfterMove | src/datetimeutil.c:193-198 | The first date of a weekly series keeps its weekday exactly when it is not past |
| Recurrence.AdjustedOccurrence | src/datetimeutil.c:180-319 | No date that unrolling produces is ever moved |
| Series.SteadyLength | src/datetimeutil.c:340-356 | All occurrences have the length of the first, if every monthly step that is taken goes from months of equal length |
| Series.SteadyExactly | src/datetimeutil.c:340-356 | For a recording shorter than a day that is exactly when no occurrence ends before it starts or lasts a day |
| Series.SteadyDisjoint | src/recs.c:529-586 | Occurrences of such a series shorter than a day never meet |
| Series.DailyDisjoint | src/recs.c:529-586 | For a daily series that bound is exact |
| Series.SameDayNextMonth | src/datetimeutil.c:352-356 | Up to day 28 a monthly step goes to the same day and time of the next month |
| Months.MonthlyStep | src/datetimeutil.c:352-356 | From any day, it goes to that day of the next month, or, if that is too short, runs over into the first three days of the month behind it |
| Months.MonthsPassed | src/datetimeutil.c:352-356 | So n steps are n months, or one more, and never two |
| Series.EarlyInMonthIsSteady | src/datetimeutil.c:352-356 | A monthly series within the first 28 days of a month keeps its length for ever |
| Series.LengthAfterMonths | src/datetimeutil.c:352-356 | Any number of monthly steps changes the length by the difference of what they move end and start, and puts the end first exactly when that exceeds the length |
| Series.MonthsOnCalendar | src/datetimeutil.c:352-356 | Up to day 28, n monthly steps are n months more on the calendar |
| Series.MonthEndInverts | src/datetimeutil.c:352-356 | Across the end of January, in every year, a monthly step puts the end of a two-hour recording before its start |
| Series.InvertsExactly | src/datetimeutil.c:352-356 | A monthly step does that to a recording shorter than a day exactly when the month it ends in is shorter than the one it starts in |
| Schedule.SortCorrect | src/recs.c:395-413 | Sorting gives the same entries in order of start |
| Schedule.SortIsUnique | src/recs.c:410-413 | With distinct starts there is one sorted order, so any sorting algorithm gives it |
| Scheduler.SortSlots | src/recs.c:410-413 | The slots of one card are sorted in place and no other slot changes |
| Scheduler.OneCard | src/recs.h:36 | Rewriting the slots of one card changes that card's queue only |
| Scheduler.Table.constructor | src/recs.c:260-270 | The tables begin as the empty schedule |
| Scheduler.Table.InsertEntry | src/recs.c:419-431 | The entry joins its card's queue in order; a full queue drops it and says so |
| Scheduler.Table.CollidesOnCard | src/recs.c:121-166 | The loop over the queue and the ongoing recording finds a collision exactly when there is one |
| Scheduler.Table.IsEntryOverlapping | src/recs.c:114-249 | So for the request itself, or for any of the dates of its series |
| Scheduler.Table.InsertRec | src/recs.c:481-597 | The new tables and the answer are those of inserting the request, with numbers, ids, gaps and counters, or the program ends, exactly when said |
| Schedule.DatedNeverEnds | src/recs.c:517-586 | A series with occurrences, the first after the epoch, never makes insertrec end the program |
| Schedule.NoOccurrencesEnd | src/recs.c:524 | A series without occurrences always does |
| Scheduler.Table.InsertSeries | src/recs.c:517-590 | The expansion loop stores exactly the unrolled entries and counts them |
| Scheduler.Table.TakeOut | src/recs.c:1760-1766 | Moving the last entry into the gap and sorting leaves that card's queue without the entry |
| Scheduler.Table.RemoveTop | src/recs.c:1622-1656 | The head leaves its queue; an empty queue is left alone |
| Scheduler.Table.DeleteSeries | src/recs.c:1726-1748 | Clearing, compacting through a temporary array and sorting leaves the entries of other series |
| Scheduler.Table.Find | src/recs.c:1705-1715 | The search finds the first card, and on it the first slot, with the sequence number |
| Scheduler.Table.AddExcludedItem | src/recs.c:1827-1851 | The number joins the row of its series, or a new row |
| Scheduler.Table.DeleteRecId | src/recs.c:1700-1769 | The new tables and the answer are those of deleting one entry or the rest of its series |
| Scheduler.Table.TickCards | src/tvpvrsrv.c:1220-1305 | One round begins, gives up or leaves the head of every queue |
| Scheduler.Table.ReleaseCard | src/tvpvrsrv.c:1069-1072 | The card is free and nothing else changes |
| Booking.ThreeWayTest | src/recs.c:122-140 | The three comparisons find a collision exactly when two closed intervals share a moment |
| Booking.OverlapTestIsExact | src/recs.c:114-249 | A request collides exactly when one of its recordings is not free on the card |
| Booking.LowestCard | src/tvcmd.c:1211-1214 | Trying the cards in turn uses the lowest that will have the request, or changes nothing |
| Booking.AcceptedYetLost | src/recs.c:422-425 | An accepted single recording is lost exactly when its card was full |
| Booking.DeleteAtRemoves | src/recs.c:1760-1766 | Swap with the last and sort is the queue with the entry simply taken out |
| Booking.DeleteSeriesFilters | src/recs.c:1726-1748 | Deleting a series leaves the filtered queue in its order |
| Booking.InsertKeepsBooked | src/recs.c:481-597 | Inserting a regular request keeps every card free of double bookings |
| Booking.NoDoubleBooking | src/tvpvrsrv.c:1222-1304 | After any run no two recordings pending or ongoing on a card share a moment, and every queue is strictly in order |
| Effects.NothingDueIsLeft | src/tvpvrsrv.c:1258-1284 | A card free after a tick that found no head more than 600 s late has nothing pending that starts within the resolution |
| Effects.GivenUpExactly | src/tvpvrsrv.c:1242-1252 | A tick gives a recording up exactly when it is the head of its queue and more than 600 s late, whether the card is busy or not |
| Effects.BegunExactly | src/tvpvrsrv.c:1253-1284 | It begins one exactly when it is the head of the queue of a free card, starts within the resolution and is at most 600 s late; nothing else comes or goes |
| Effects.AnswerIsLastNumber | src/recs.c:596 | What is accepted is answered with the number given out last |
| Effects.AnswerIsLastRecording | src/recs.c:564-596 | For a regular request accepted with room that is the number of its last recording, at the last date asked for and pending on the card; none pending has a higher one |
| Effects.AnswerAfterRun | src/recs.c:564-596 | So after any run of regular requests, ticks, deletions and endings |
| Effects.UnknownTypeIsTold | src/recs.c:578-583 | The answer is 0 exactly for an accepted series of a type beyond 0 to 9 with a number not excluded; one entry is stored then, and the series id is not used up |
| Effects.EarlyDateEnds | src/datetimeutil.c:461-480 | A series whose next date is before the epoch ends the program exactly when its first date is free on the card |
| Effects.DeletedExactly | src/recs.c:1705-1768 | Deleting answers yes exactly when some card has the number, and changes nothing otherwise |
| MovedDates.InsertIsExact | src/recs.c:494-590 | An insert leaves the cards free of double bookings exactly when it is refused or every entry is free at the date it is stored at |
| MovedDates.OnlyLastUntested | src/recs.c:494-517 | For a daily or weekday series with a past or inadmissible first date: exactly when an episode is excluded or the date after the last one asked for is free |
| MovedDates.LoadIsExact | src/tvxmldb.c:378-383 | The same for a record that the reader puts on the first card that will have it |
| MovedDates.NeverBookedTwiceExactly | src/tvpvrsrv.c:1222-1304 | A run has no card booked twice at any time exactly when every accepted series is free at its stored dates |
| MovedDates.SaturdayRequest | src/recs.c:494-517 | Monday to Friday, asked for on a Saturday, is put on top of a recording on Friday |
| MovedDates.PastDateAtStart | src/recs.c:494-517 | An episode due while the daemon was down is put on top of a recording a day later at start-up |
| Ledger.Conservation | src/recs.c:564-596 | After any run each entry given a number is in exactly one place, pending, ongoing, finished, cancelled, deleted or dropped; numbers are never reused and nothing is begun twice |
| Ledger.StepWorldIsStep | src/tvpvrsrv.c:1222-1304 | Keeping the history does not change what a step does |
| Punctual.TickIsInTime | src/tvpvrsrv.c:1227-1289 | A tick in time finds no head overdue by more than the delay and the gap, cancels nothing, and leaves a free card with nothing overdue and a busy one with nothing before its end |
| Punctual.NeverMissed | src/tvpvrsrv.c:1206-1308 | If ticks and endings come in time, no tick of any run finds a head overdue by more than the delay and the gap, so none takes the branch that gives a recording up |
| Episodes.GapShiftsDates | src/recs.c:545-586 | An unrolled episode is on the date its number asks for exactly when no earlier number is excluded, and never later |
| Episodes.UnrollNumbers | src/recs.c:532-567 | Unrolling yields numbers of the series, none excluded, in order |
| Episodes.UnrolledNumbers | src/recs.c:529-586 | They are all the numbers asked for but the excluded ones |
| Episodes.InsertKeepsSeries | src/recs.c:529-590 | A new series enters complete, with an id of its own, on one card |
| Episodes.DeleteKeepsSeries | src/recs.c:1723-1766 | Deleting records the number of a single episode, and a whole series goes without touching single recordings |
| Episodes.DeletesExactly | src/recs.c:1723-1766 | Deleting takes one entry, or all that is left of its series, and nothing else from any card; never a single recording with a series |
| Episodes.EpisodeGaps | src/recs.c:1750-1765 | After any run, what is left of a series has rising numbers, unchanged last number and dates by number, and misses exactly the numbers deleted singly |
| SeriesRecord.HeadIsLowest | src/tvxmldb.c:559-565 | The writer's search for the lowest number comes back with the first entry's own |
| SeriesRecord.LeftOfSeries | src/recs.c:555-567 | When no episode is pending behind a deleted one, the k-th entry left has the k-th number after the first and the date that number asks for |
| SeriesRecord.SizeOfSeries | src/recs.c:555-561 | As many entries are left then as there are numbers from the first to before the first deleted one |
| SeriesRecord.ReadBack | src/tvxmldb.c:559-592 | The record of an entry is read back as a request with its times, type, count and number |
| SeriesRecord.SeriesRemade | src/tvxmldb.c:559-592 | The one record then makes every entry that is left again, with times, counts and numbers |
| SeriesRecord.PlanIsEarlier | src/recs.c:532-586 | In any case it makes the numbers that are left, none later than it was; all on their dates exactly when no episode is pending behind a deleted one |
| SeriesRecord.PlanCovers | src/recs.c:532-586 | After earlier restarts, which forgot deleted numbers, it makes at least what is pending |
| Database.SecondFileHasNoExcludes | src/recs.c:532-537 | Whatever excludes a file had, the file written after reading it has none |
| Database.YearsInFile | src/tvxmldb.c:137-156 | The times whose dates the reader takes are exactly those from 2000 to 2049 |
| Database.NoLengthIsIgnored | src/tvxmldb.c:340-348 | The record of a recording without length, or with its end before its start, is left out on reading |
| Database.RecordTells | src/tvxmldb.c:524-612 | The record holds the programme, the times in civil form, and of a series its type, remaining count, a number no later one falls below, and just the deleted numbers above that |
| Reloading.ReloadIsPlanned | src/tvxmldb.c:460-470 | If every record is clear of those before it on its card, with room for a series on that card and for single recordings on any, reading makes all the entries that the records ask for, each as often, with no double booking |
| Returning.ReloadIsExact | src/tvxmldb.c:397-616 | Then a restart leaves every pending recording as it was, with its times and numbers and as often, exactly when no episode is pending behind a deleted one |
| Returning.ReloadDropsNothing | src/tvxmldb.c:378-391 | After any number of restarts a further one loses nothing pending |
| Fitting.RoomyIsSaveable | src/recs.c:494-517 | The records fit, and nothing pending is lost, when the dates deleted at the end of a series are free of what its card is given before and its queue has room for their numbers, and single recordings find room wherever they go |
| Fitting.FullCardLoses | src/recs.c:422-425 | Without that last room, of two recordings, each on a card of one slot, the later one is lost by a restart |
| Reloading.PlaceOne | src/tvxmldb.c:378-383 | First fit puts a record on its own card or an earlier one, with every entry it makes, while its own card holds only what earlier records of that card make; only a single recording needs to be told that no card before is full |
| Returning.ReloadAfterRun | src/tvxmldb.c:520-616 | So for the schedule that any run of clients leaves, deleted episodes or not |
| SecondReload.FirstReloadKeepsNumbers | src/recs.c:532-537 | After one restart just the episode numbers are pending that were so before, in all series |
| SecondReload.SecondReloadBringsAll | src/recs.c:532-537 | After a second, every number from the first pending one of each series to its last, deleted ones included, and no other |
| Gaps.OneSeriesReturns | src/tvxmldb.c:378-391 | A schedule of one series comes through a restart unchanged exactly when no number is pending behind a deleted one and the numbers asked for fit a queue |
| Gaps.SingleAmongSeries | src/recs.c:494-517 | A single recording on the card of a series is there after a restart exactly when it is apart from every date the series is given and that leaves room |
| Gaps.DeletedSlotTaken | src/recs.c:545-586 | A recording in the slot of a deleted episode is lost by a reload, its place taken by a later episode |
| Restarts.ReloadKeepsSeries | src/tvxmldb.c:460-470 | The reloaded schedule has again series on one card each, dates by number, and no card booked twice; and every number is accounted for, if none was deleted from a pending one on |
| Restarts.Lifetime | src/tvxmldb.c:397-616 | Through any number of runs and restarts, also with the last episodes of series deleted, no pending recording is lost by a restart and the schedule stays in that order |
| Storage.WriteFile | src/tvxmldb.c:499-618 | The nested loops write exactly the records that saving the schedule means |
| Storage.WriteRecord | src/tvxmldb.c:524-612 | The record of a slot has the lowest number from there on and the excluded numbers above it |
| Storage.ProcessRecording | src/tvxmldb.c:335-394 | The do-while loop puts the record on the first card that will have it, or on none, or the program ends, exactly when said |
| Storage.ReadFile | src/tvxmldb.c:462-470 | The loop over the records loads them in file order, or the program ends at one of them |
| Storage.SoundFileIsRead | src/tvxmldb.c:462-470 | A file whose series have occurrences and dates after the epoch is read to its end |
| RepeatCount.CountRepeats | src/tvcmd.c:904-927 | Both counting loops, from a midnight or from the present time, terminate with the number of dates that start by the limit |
| RepeatCount.EndDateIsExact | src/tvcmd.c:899-928 | For a start after today the count is exact whatever the time of day, and zero exactly when no date comes in time |
| RepeatCount.TodayIsMissed | src/tvcmd.c:904-911 | For a start today the count is one short exactly when today is one of the days of a daily or weekday series, or the end date is one of the days of a weekly or monthly one, and exact otherwise; for a monthly series from any day it is exact exactly when the end date is between no two dates of one number, of which three months tell |
| RepeatCount.CountFromNow | src/tvcmd.c:627-649 | A series that begins today, at a time still ahead, is counted exactly from the present time |
| RepeatCount.MovedToTomorrow | src/tvcmd.c:627-649 | A start time gone by is moved to tomorrow but counted from today: one too many in the same cases, and exact otherwise |
| RepeatCount.LaterStart | src/tvcmd.c:1011-1075 | A series that begins with the m-th of the dates counted from the present has m fewer by the end date, so the count that is kept is right exactly when m or the count is zero |
| RepeatCount.LaterStartDate | src/tvcmd.c:1011-1075 | For a daily or weekday series from a later start date: exactly when it begins with the first date counted or none was counted |
| RepeatCount.LaterWeekly | src/tvcmd.c:1011-1075 | A weekly series that begins d days later is counted right exactly when the end date is at least d days after the last weekday counted |
| RepeatCount.LaterDaily | src/tvcmd.c:1011-1075 | A daily series that begins d days later has its last date d days past the end date |
| RepeatCount.CountsAgree | src/tvcmd.c:899-928 | The counted series and the real one have the same count exactly when the end date lies between no two of their dates of the same number |
| AddCommand.AddRecording | src/tvcmd.c:1163-1223 | The new tables and the answer are those of checking the times and asking the cards |
| AddCommand.TimesAreChecked | src/tvcmd.c:1166-1219 | Every refusal leaves the schedule as it was, with the answer its times ask for; what is accepted is on the named card or the first that does not refuse it, and touches no other |
| AddCommand.AcceptedIsRegular | src/tvcmd.c:1166-1174 | What is accepted is regular but for the first weekday and monthly steps from months of different length, which the command does not look at |
| AddCommand.ReplyIsLast | src/tvcmd.c:1204-1223 | The reply to an accepted request is about its last recording, pending then, unless it was a single one put on a full card |
| AddCommand.TakesLowestFree | src/tvcmd.c:1202-1219 | A request goes to the lowest card free for all of it, and for a series with room, or is refused because there is none; a single recording is put on a full card too, and lost |
| Shutdown.GetNextSched | src/recs.c:1773-1807 | The loops over the cards compute the report, time, card and record, whatever stands behind the counts where the first loop looks once too far |
| Shutdown.NextIsEarliest | src/recs.c:1783-1799 | No pending recording starts before the reported one, and nothing is reported exactly when nothing is pending |
| Shutdown.RecordIsReported | src/recs.c:1794-1796 | The record is that of the reported card exactly when no later card has an earlier head than the first busy one |
| Shutdown.RecordIsRunnerUp | src/recs.c:1794-1796 | The record is that of the first busy card or else of the card that is earliest among those below the one reported |
| Shutdown.CheckForShutdown | src/tvshutdown.c:301-394 | The sequence of tests comes to the decision |
| Shutdown.SwitchOffIsSafe | src/tvshutdown.c:351-385 | Switching off interrupts nothing and lasts longer than the minimum; the alarm is the start-up time before the start of a pending recording, and the server awake for every one exactly when its clock works or there is none: so it is set by the earliest |
| Shutdown.StaysOnOtherwise | src/tvshutdown.c:301-393 | It stays on exactly when it may not switch itself off, has not been up long enough, is in use, loaded, transcoding or recording, or has too little time before some recording |
| Shutdown.EpochIsNone | src/tvshutdown.c:351-358 | A next recording at the epoch is taken for none |
| Shutdown.NumOngoing | src/tvshutdown.c:93-102 | The loop counts the busy cards |
| Shutdown.RunningCards | src/tvshutdown.c:93-102 | That count is the number of cards with an ongoing recording |
| Daemon.Perform | src/tvpvrsrv.c:1211-1304 | Each critical section does to the tables what its step does to the schedule, or ends the program, exactly when said |
| Daemon.Serve | src/tvpvrsrv.c:1191-1306 | So for every run, which keeps the tables free of double bookings |
| Daemon.RegularRunGoesOn | src/tvpvrsrv.c:1191-1306 | No run of regular requests from the epoch on ends the program |
| UrlCoding.HexRoundTrip | src/utils.c:419-427 | Two hexadecimal digits give back the byte |
| UrlCoding.RoundTrip | src/utils.c:433-481 | Decoding undoes encoding, for every string |
| UrlCoding.EncodedIsPlain | src/utils.c:433-454 | An encoded string has only unreserved characters, plus signs and percent signs |
| UrlCoding.PlainIsItself | src/utils.c:439-442 | Letters, digits and the four marks are encoded as themselves |
| UrlCoding.OthersAreCoded | src/utils.c:443-449 | A space becomes a plus sign and any other character a percent sign and its two digits with capital letters, high half first |
| UrlCoding.CodedIsDecoded | src/utils.c:467-471 | A percent sign and two hexadecimal digits, with small or capital letters, become the character of that value |
| UrlCoding.AnyTwoAreDecoded | src/utils.c:419-421 | Any other two characters behind a percent sign by the same arithmetic |
| UrlCoding.OthersAreCopied | src/utils.c:472-476 | A plus sign becomes a space, and all else but a percent sign itself |
| UrlCoding.PercentIsPassed | src/utils.c:467-471 | A percent sign with fewer than two characters behind it is passed over |
| UrlCoding.UrlEncode | src/utils.c:433-454 | The loop fills a buffer of three times the length and a zero with the encoding |
| UrlCoding.UrlDecode | src/utils.c:460-481 | The loop fills a buffer with the decoding, also of malformed input |
| UrlCoding.UrlDecodeBuff | src/utils.c:498-524 | The loop stops at the buffer's bound, ends the string, and says whether anything was left |
| UrlCoding.BufferGetsPrefix | src/utils.c:498-524 | Of encoded input the buffer gets the first maxlen - 1 characters, and the answer is -1 exactly when that is not all |
| Template.ReplaceKeywords | src/rkey.c:43-101 | The loop leaves the substituted text in the buffer if it fits, and the buffer as it was otherwise; it leaves its work buffer exactly when the result does not fit that |
| Template.KeyIsReplaced | src/rkey.c:54-76 | A bracketed name of up to 254 characters becomes the value of the first key that is the same but for the case of letters, whole if it has up to 1024 characters and else its first 1024; what was put in is not read again |
| Template.BeginsExactly | src/rkey.c:54-67 | A key is found exactly at a bracketed name of up to 254 characters that some key equals but for the case of letters |
| Template.CaseIsIgnored | src/rkey.c:65 | Names are the same exactly when each character is, or is the other case of the same letter |
| Template.BracketIsCopied | src/rkey.c:77-86 | A bracket that begins no key is copied and reading goes on with the next character |
| Template.FitsWorkBuffer | src/rkey.c:46-48 | The result fits the work buffer whenever no more keys are substituted than there are keys |

## Left out

- Time zones, daylight saving and leap seconds: local time is a fixed distance from UTC.
- The error answer -1 of the time conversions: every integer is a time here.
- XML text, PCRE matching and printf formatting: a file is a list of records with integer fields. Dates outside the years 2000 to 2049 become zeros when read, as in the date parser.
- Sockets, HTTP, HTML, mail, logging, capture-card control, transcoding and files: input and output.
- pthread details: each critical section is one step, and starting a recording succeeds. The look at the queues and the later checks of the shutdown decision are one step, although the lock is given up between them.
- 32-bit and unsigned arithmetic: sequence numbers, ids, counts and times are unbounded integers.
- Fixed capacities of the exclusion table and of the writer's list of saved series: they are sequences.
- The sorting algorithm: qsort is modelled as insertion sort, which for distinct starts gives the only possible order; for equal starts, which only unchecked insertion could produce, qsort leaves the order open.
- Titles and file names beyond the two numbers of an episode, profiles, and their update: an entry carries one text unchanged, and entries are values, so nothing is said about sharing of records between queues.
- Freeing of memory: a deleted entry is just gone; the slots beyond the count of a queue hold anything.
- Scheduler.Table.InsertRec: when the program ends, by its assertion or by exit, nothing is said of the tables.
- Storage.ReadFile: takes at least one card, without which the source looks at a queue that is not there.
- Template.ReplaceKeywords: says exactly when the work buffer is overrun, and nothing of what happens then.
- RepeatCount.TodayIsMissed: for a monthly series from day 28 on says when the count is exact, not by how much it is off otherwise; the same for RepeatCount.MovedToTomorrow. The counted series and the real one drift apart there at the ends of months.
- RepeatCount.LaterStart: a monthly series that begins between the dates counted is left to RepeatCount.CountsAgree.
- Returning.ReloadIsExact: takes a schedule whose records fit their own cards again; a record that does not may be put on another card by chance, and nothing is said of that.
- SecondReload.SecondReloadBringsAll: takes records that fit their cards again of the schedule between the two restarts too; a deleted episode that comes back may otherwise find its date taken.
- Listing, statistics, history, configuration and frequency tables: easy bookkeeping.
