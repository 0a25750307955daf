# Cricket match scheduler and live tracker — verified model

This project models the decisions `main.py` makes in the real-time cricket data
scraper. The scheduler, the scrapers and the database are left outside the model.

- **The daily timer pass** (`schedule_timed_jobs_for_today_matches`):
  - It selects the stored match documents whose `match_date` contains today's date written as `"%b %d, %Y"`.
  - It parses each `match_date` with `"%b %d, %Y, %I:%M:%S %p"`.
  - It adds two one-shot jobs per match: a detail refresh twenty minutes before the start, then the start of live tracking.
  - The first document that raises ends the pass; the jobs added before it stay.
- **The live URLs**: the site root followed by the match link, with every `info` replaced by `live` or by `scorecard`.
- **The live-tracking loop** (`start_live_scraping`):
  - Each tick fetches the live page and the scorecard, tags both with the match id, and saves the live page and then the scorecard.
  - The loop stops after saving the first live page that has a `player_of_the_match` field.
  - An exception ends the session quietly.

Files and modules:

| file | module | contents |
|---|---|---|
| `common.dfy` | `Common` | `Option`, `Result` |
| `calendar.dfy` | `Calendar` | proleptic Gregorian dates as Python's `datetime` has them; `t - timedelta(minutes=20)` |
| `text.dfy` | `Text` | substring search, `str.replace`, `str.count`, `str.split`, `str.join` |
| `dateformat.dfy` | `DateFormat` | `strptime` of the stored date format and `strftime` of the query date |
| `timers.dfy` | `Timers` | the timer pass as functions, and the `Scheduler` class whose methods add the jobs |
| `live.dfy` | `LiveTracking` | the URLs, the session as a function of what each tick brings, the `Store` class, and the loop as methods |

The loops are methods with loop invariants:
- `Timers.Scheduler.ScheduleAll` runs the `for` loop.
- `LiveTracking.PollLoop` runs the `while True` loop.

Each method is proved equal to a specification function (`Derive`, `Poll`). The lemmas about those functions state what the source promises.

The date matcher is checked against a description of the format that does not use it. A `DateFormat.Layout` is a month name followed by one piece per later part, each piece being its white space and its digits or AM/PM. `ScanSound` and `ScanComplete` prove that the matcher accepts exactly the strings such layouts spell, and reads their fields.

Parameters stand in for what the model cannot see:
- The clock is the `today` parameter.
- The stored documents are a sequence, in the order the query returns them.
- What each fetch or save returns or raises is a `Tick` input.
- Whether creating the two scrapers raised is a boolean, `scrapersReady`.

What the code does, stated as the model has it:
- A date that does not parse stops the whole pass: no `try` surrounds the `for` loop, so the first exception leaves the function. No record is skipped, and the records after it get no jobs.
- Running the pass twice registers the timers twice: jobs are added without a job id, so nothing merges a second registration for the same match and kind.
- Nothing about upsert or last-write-wins is asserted of the saves: the code passes the match id value itself as `unique_field`, and the save routine is not part of this model.
- A month spelled with U+017F (long s) for the `s` of `Sep` passes Python's case-insensitive match, but `_strptime` then looks up the lower-cased name in its month list and raises `ValueError`. The model compares month names with ASCII case folding and reports `Mismatch`, so both reject the date and end the pass.
- The live session has three ways to end: Polling goes on, Finished is the `break` on the marker, and Aborted is any exception caught by the `except` clause.

## Model

| member | source | states |
|---|---|---|
| Calendar.PrevDate | main.py:57 | the day before a valid date other than 0001-01-01 is valid and has ordinal one less |
| Calendar.SecondsBefore | main.py:57 | subtracting up to a day succeeds exactly when the result is not before 0001-01-01 00:00:00, and then lies exactly `delta` seconds earlier |
| Calendar.SecondsBeforeSameDay | main.py:57 | going back no further than midnight keeps the date and lowers the clock by `delta` |
| Calendar.SecondsBeforePrevDay | main.py:57 | going back past midnight lands on the previous date, at the clock time `delta` seconds earlier modulo a day |
| Text.IndexOf | main.py:49 | a position found is an occurrence of the pattern |
| Text.IndexOfIsLeftmost | main.py:49 | the found position is the leftmost occurrence; finding nothing means there is no occurrence anywhere |
| Text.Contains | main.py:49 | through `ContainsIffOccurs`: the substring test holds exactly when the pattern occurs at some position |
| Text.ContainsIffOccurs | main.py:49 | the substring test holds exactly when the pattern occurs at some position |
| Text.Split | main.py:94-95 | splitting always gives at least one piece |
| Text.SplitPiecesFree | main.py:94-95 | no piece of a split contains the pattern: the split cuts at every occurrence, not only the first |
| Text.ReplaceAll | main.py:94-95 | through `ReplaceIsJoinOfSplit` and `SplitPiecesFree`: `str.replace` rewrites every occurrence, the pieces between them kept as they are; through `ReplaceAbsent` a string without the pattern is unchanged |
| Text.Count | main.py:94-95 | the count is zero exactly when the pattern does not occur |
| Text.ReplaceAbsent | main.py:94-95 | replacing a pattern that does not occur leaves the string unchanged |
| Text.ReplaceIsJoinOfSplit | main.py:94-95 | `s.replace(p, r)` equals `r.join(s.split(p))` |
| Text.JoinOfSplit | main.py:94-95 | joining the pieces of a split with the pattern gives back the string |
| Text.ReplaceBySelf | main.py:94-95 | replacing a pattern by itself changes nothing |
| Text.ReplaceLength | main.py:94-95 | each occurrence replaced changes the length by the difference of the two lengths, and nothing else changes it |
| DateFormat.FindMonth | main.py:53 | the month found is the first whose abbreviation the text spells up to ASCII case, and no month is found only when none matches |
| DateFormat.MonthNumber | main.py:53 | `%b` reads a month in 1..12 whose abbreviation the text spells up to ASCII case, or 0 only when it spells none |
| DateFormat.Meridiem | main.py:53 | `%p` reads AM exactly for a two-letter `am` in any case, PM exactly for `pm` in any case, and nothing else |
| DateFormat.Hour24 | main.py:53 | a 12-hour reading with its AM/PM gives a 24-hour hour, at or after noon exactly for PM |
| DateFormat.Step | main.py:53 | one part of the layout advances within the string and sets only its own field: the month always stays, the day stays except at `%d`, the year except at `%Y` |
| DateFormat.Read | main.py:53 | each step of the layout leaves the fields read by earlier steps as they were: the month after the month step, the day after the day step, the year after the year step |
| DateFormat.Scan | main.py:53 | a string that matches the layout starts with a month abbreviation, and the month read is that month; through `ScanSound` and `ScanComplete` it matches exactly the strings of the layout |
| DateFormat.ScanSound | main.py:53 | every string the matcher accepts is a month abbreviation, white space, one or two digits, `,`, white space, four digits, `,`, white space, one or two digits, `:`, one or two digits, `:`, one or two digits, white space and AM/PM in any case, with nothing after; the fields read are the ones those pieces spell |
| DateFormat.ScanComplete | main.py:53 | every string laid out that way is accepted, and the matcher reads from it exactly the fields its pieces spell |
| DateFormat.FromFields | main.py:53 | the matched fields convert exactly when the year is in 1..9999, the day within its month, the hour in 1..12 and minutes and seconds in 0..59, and the date-time then has those fields; the regular expression's own bounds fail with `Mismatch` exactly when the day is outside 1..31, the hour outside 1..12, the minute outside 0..59 or the second outside 0..61 |
| DateFormat.Parse | main.py:53 | a successful parse is a valid date-time (years 1-9999, a day within its month, a 24-hour clock) |
| DateFormat.ParseExactly | main.py:53 | parsing succeeds exactly on the strings of the layout whose fields are in range, and its result has those fields |
| DateFormat.FormatDate | main.py:49 | today's date prints as twelve characters |
| DateFormat.FormatDateTime | main.py:53 | a date-time prints in the stored layout as twenty-five characters |
| DateFormat.HourRoundTrip | main.py:53 | every 24-hour clock hour prints as a 12-hour hour in 1..12 and reads back with its AM/PM as itself |
| DateFormat.Hour24RoundTrip | main.py:53 | 12 AM is hour 0, 12 PM is hour 12, other PM hours add twelve; every 12-hour reading is a 24-hour hour, PM exactly from noon |
| DateFormat.MonthNumberOfAbbrev | main.py:53 | each month's abbreviation reads back as that month |
| DateFormat.ParseFormatRoundTrip | main.py:53 | parsing a date-time printed in the stored format gives it back |
| DateFormat.ParseFormatFields | main.py:53 | any fields printed in the layout parse to exactly what the range checks make of them |
| DateFormat.ParseDatePrefix | main.py:49-53 | a string that starts with a printed date and parses, parses to that date |
| DateFormat.HourOutsideClockRejected | main.py:53 | an hour outside 1..12 does not match the format |
| DateFormat.LeapSecondRejected | main.py:53 | seconds 60 and 61 match the format but are rejected as out of range |
| DateFormat.YearZeroRejected | main.py:53 | year 0000 matches the format but is rejected as out of range |
| DateFormat.AfternoonExample | main.py:53 | "Nov 15, 2024, 03:30:00 PM" parses to 15:30 on 15 November 2024 |
| DateFormat.MidnightHourExample | main.py:53 | 12:05 AM parses to hour 0 |
| DateFormat.EarlyMorningExample | main.py:53 | "Mar 01, 2024, 12:10:00 AM" parses to 00:10 on 1 March 2024 |
| DateFormat.NoonExample | main.py:53 | 12:30 PM parses to hour 12 |
| DateFormat.DayPastMonthEndExample | main.py:53 | 30 February matches the format but is out of range |
| DateFormat.MonthCaseExample | main.py:53 | the month is read without regard to case |
| DateFormat.NoSuchMonthExample | main.py:53 | a three-letter word that is no month's abbreviation names no month |
| DateFormat.MeridiemCaseExample | main.py:53 | AM/PM is read without regard to case, and anything else is no marker |
| Timers.IsToday | main.py:49 | through `Select`: the query picks a document exactly when its `match_date` is present and contains today's printed date |
| Timers.Select | main.py:49 | a document is selected exactly when it is stored and its `match_date` contains today's date; the selection is no longer than what is stored |
| Timers.SelectAppend | main.py:49 | the query keeps stored order |
| Timers.SelectedParsedIsToday | main.py:49-53 | a selected `match_date` that parses parses to a time on today's date |
| Timers.DateOnlyInFront | main.py:49-53 | in a string that matches the format, today's printed date can only occur at the front |
| Timers.Schedulable | main.py:51-57 | through `MatchTimers`: a record gets its timers exactly when date, id and link are present, the date parses and the parsed time is at least twenty minutes after 0001-01-01 00:00:00 |
| Timers.MatchTimers | main.py:51-68 | one record gives its two timers exactly when its date, id and link are present, the date parses and the refresh stays after 0001-01-01; the timers carry the record's own id and link, the live start at the parsed time and the refresh twenty minutes before; each exception holds exactly in its own case: a missing `match_date`, then a missing `match_id`, then a date that does not parse, then a missing `match_link`, then a start less than twenty minutes after 0001-01-01 00:00:00 |
| Timers.RefreshPrecedesLive | main.py:57-68 | the refresh fires strictly before the live start of the same match |
| Timers.Collect | main.py:50-69 | a pass registers two timers per record it passes, and all of them when nothing raises |
| Timers.Outcomes | main.py:50-53 | there is one outcome per record |
| Timers.OutcomeAt | main.py:50-53 | the outcome at position `i` is that of record `i` |
| Timers.CollectAppend | main.py:50-69 | a further record after a pass that has not stopped appends its two timers or stops the pass with its exception |
| Timers.CollectStops | main.py:50-69 | once a record has raised, later records change nothing |
| Timers.CollectCompletes | main.py:50-69 | the pass runs to the end exactly when no record raises |
| Timers.AbortLeavesPrefix | main.py:50-69 | the first exception ends the pass with that exception, and the timers of the records before it stay registered, two per record |
| Timers.CollectedPair | main.py:58-68 | the record at position `i` owns positions `2i` and `2i+1`: refresh, then live start |
| Timers.Derive | main.py:50-69 | through `DeriveCompletes`, `DeriveStopsAt` and `DerivedPair`: the loop registers two timers per record in order and stops at the first record that raises, keeping what came before |
| Timers.TodayTimers | main.py:46-69 | through `TodayTimersOnDay` and `DeriveCount`: the daily pass over the selected records schedules only today (refreshes possibly the evening before), one job of each kind per record |
| Timers.DeriveCompletes | main.py:50-69 | the pass over the selected records runs to the end exactly when every one is schedulable |
| Timers.DeriveStopsAt | main.py:50-69 | when record `k` is the first unschedulable one, the pass raises its exception and keeps exactly the `2k` timers of the records before it |
| Timers.DerivedPair | main.py:58-68 | each record a pass reaches registers its own two timers at positions `2i` and `2i+1`, with its own id and link |
| Timers.MatchTimersOnDay | main.py:48-68 | a selected match starts on today's date; its refresh is today too, or the day before when the match starts before 00:20 |
| Timers.TimersOnDay | main.py:48-69 | every timer of a pass over today's records falls on today, or is a refresh on the day before |
| Timers.TodayTimersOnDay | main.py:46-69 | the daily pass schedules nothing outside today, except refreshes on the evening before |
| Timers.CountForAppend | main.py:58-68 | the jobs of one kind for one match in two sequences of jobs add up |
| Timers.DeriveCount | main.py:50-69 | a pass that runs to the end registers, per match id and per kind, exactly one job per selected record with that id, merging nothing |
| Timers.SecondPassAddsOne | main.py:58-68 | a second pass over the same records adds, per match id and kind, one more job for each selected record with that id, on top of what the first pass left |
| Timers.RerunRegistersAgain | main.py:58-68 | two passes over the same records together add, per match id and kind, two jobs for each selected record with that id |
| Timers.ScheduledAt | main.py:53-68 | a record whose date parses to `start`, with the refresh time computed, gets exactly those two timers |
| Timers.AfternoonRefresh | main.py:57 | twenty minutes before 15:30 is 15:10 the same day |
| Timers.MidnightRefresh | main.py:57 | twenty minutes before 00:10 on 1 March 2024 is 23:50 on 29 February 2024 |
| Timers.AfternoonMatchExample | main.py:53-68 | a match on "Nov 15, 2024, 03:30:00 PM" gets its refresh at 15:10 and its live start at 15:30 that day |
| Timers.MidnightMatchExample | main.py:53-68 | a match at 00:10 on 1 March 2024 gets its refresh at 23:50 on 29 February |
| Timers.Scheduler.constructor | main.py:25 | a new scheduler holds no jobs |
| Timers.Scheduler.AddJob | main.py:58-68 | a job is appended to the jobs, nothing else changes |
| Timers.Scheduler.ScheduleMatch | main.py:51-68 | the loop body adds the record's refresh job and then its live-start job, or adds nothing and reports the exception |
| Timers.Scheduler.ScheduleAll | main.py:50-69 | the `for` loop appends exactly the timers of `Derive` and returns its exception |
| Timers.Scheduler.ScheduleTimedJobsForTodayMatches | main.py:46-69 | one daily pass appends exactly the timers of `TodayTimers` and returns its exception |
| LiveTracking.LiveUrl | main.py:94 | the live URL starts with the site root |
| LiveTracking.ScorecardUrl | main.py:95 | the scorecard URL starts with the site root |
| LiveTracking.LiveUrlLength | main.py:94 | the live URL is as long as the root and the link together |
| LiveTracking.ScorecardUrlLength | main.py:95 | the scorecard URL is five characters longer per `info` in the link |
| LiveTracking.LinkWithoutInfo | main.py:94-95 | a link without `info` gets only the root in front, for both pages |
| LiveTracking.UrlsShareSplit | main.py:94-95 | both URLs are the pieces of the link between occurrences of `info`, joined with `live` or `scorecard`; joining them with `info` gives the link; no piece still holds `info`, so every occurrence is rewritten |
| LiveTracking.Tag | main.py:104-105 | tagging sets `match_id` to the id as a string and keeps every other field |
| LiveTracking.TagKeepsCompletion | main.py:104-110 | tagging neither adds nor removes `player_of_the_match` |
| LiveTracking.Store.constructor | main.py:107-108 | a new store has logged no saves |
| LiveTracking.Store.SaveToDb | main.py:107-108 | a save is appended to the log, nothing else changes |
| LiveTracking.Poll | main.py:100-115 | a session makes no more saves than requests, and at most two requests per tick |
| LiveTracking.StartLive | main.py:91-98 | when creating the scrapers raises, the session ends Aborted with nothing requested or saved |
| LiveTracking.TickRequests | main.py:101-102 | a tick requests the live URL first, then the scorecard URL, and only the live URL exactly when the live fetch raised |
| LiveTracking.TickSaves | main.py:104-108 | through `TickSavesShape`: a tick's saves are tagged with the match id and go live page first, two of them when both were saved |
| LiveTracking.Next | main.py:110-118 | through `NextIsCompletionRule`: polling goes on exactly without a raise and without the marker, finishes on the marker, aborts on a raise |
| LiveTracking.NextIsCompletionRule | main.py:110-112 | a tick keeps polling exactly when both pages were saved and the live page has no `player_of_the_match`; it finishes exactly when they were saved and it has one; it aborts exactly when something raised |
| LiveTracking.PollWithoutStop | main.py:100-115 | while no tick stops the loop, every tick's requests and saves are made and polling goes on |
| LiveTracking.PollStopsAtFirst | main.py:100-118 | the loop stops at the first tick that does not keep polling, after that tick's requests and saves, in the state that tick leads to |
| LiveTracking.PollAfterStop | main.py:112 | once the loop has stopped, later ticks change nothing |
| LiveTracking.PollContinues | main.py:113-115 | a tick that keeps polling is followed by another tick; the log only grows |
| LiveTracking.RequestsStep | main.py:101-102 | one tick's requests, live page first, keep the requests alternating |
| LiveTracking.TickSavesShape | main.py:104-108 | one tick's saves are tagged with the match id and go live page first, two of them when the tick completes |
| LiveTracking.SavesStep | main.py:104-108 | one tick's saves put in front keep the saves tagged and alternating |
| LiveTracking.PollShape | main.py:101-108 | on every run each save carries the match id as its tag and as `unique_field`; saves go live page then scorecard; requests go live URL then scorecard URL |
| LiveTracking.FinishedSavesTerminalTick | main.py:107-112 | a finished session ends with the saves of the terminal tick: its live page, which has the marker, then its scorecard |
| LiveTracking.FinishedIffMarker | main.py:100-112 | a session finishes exactly when some tick's live page has the marker and every tick before it kept polling |
| LiveTracking.MarkerEndsSessionExample | main.py:104-112 | a live page `{"player_of_the_match": "X"}` ends the session after its two tagged saves |
| LiveTracking.NoMarkerPollsAgainExample | main.py:100-115 | a live page without the marker is followed by another tick |
| LiveTracking.RaiseEndsSessionExample | main.py:117-118 | a scorecard fetch that raises ends the session Aborted; no further tick is taken |
| LiveTracking.PollFrom | main.py:100-112 | the loop from tick `k` takes tick `k` and then goes on from `k + 1` only if it keeps polling |
| LiveTracking.PollAdvance | main.py:100-115 | a tick that keeps polling carries the loop invariant one tick on |
| LiveTracking.RunTick | main.py:101-112 | one pass of the loop body requests the live page and the scorecard, tags both, saves live then scorecard, and reports the state the tick leads to |
| LiveTracking.PollLoop | main.py:100-115 | the `while True` loop makes exactly the requests and saves of `Poll`, and ends in its state |
| LiveTracking.StartLiveScraping | main.py:91-118 | the whole function builds both URLs, opens the scrapers and polls; it makes exactly the requests and saves of `StartLive`, and no exception escapes |

## Left out

- The APScheduler set-up in `schedule_jobs` (main.py:27-44) is foreign library and process lifecycle. That covers the interval triggers, their start anchors, the busy wait and the shutdown. A job is modelled as the timer record it adds.
- How APScheduler treats a `run_date` in the past, such as a refresh for a match that has already started, is library behaviour and is not modelled.
- The thread pool (main.py:24, 59, 66) and the concurrency between live sessions are left out. A submitted job is the `Kind` and the arguments carried by its timer.
- `scrape_match_list` and `scrape_match_details` (main.py:71-89) are wrappers around calls outside this model.
- `Scraper`, `get_all_match_details` and `save_to_db` are not part of this model. Fetch results and save failures are inputs; saves are log entries.
- Upsert and last-write-wins are not asserted of the saves. The code passes the id value itself as `unique_field` (main.py:107-108), so the actual keying depends on code outside this model.
- MongoDB query mechanics (main.py:49, 86) are left out. The `$regex` query is modelled as a substring test on a string `match_date`, which is exact because the pattern has no metacharacters. A `match_date` stored as an array or another non-string is not modelled.
- Logging (main.py:51, 73-89, 111, 114, 117-118) and traceback formatting are not modelled.
- `time.sleep(2)` (main.py:115) is a tick boundary only.
- `datetime.now()` is the `today` parameter.
- LiveTracking.PollLoop: the `while True` loop is modelled over a finite sequence of ticks. A session whose ticks run out is reported in the Polling state, because the model cannot run forever.
- A `match_link` or `match_id` that is present but is `None` or not a string is not modelled. Indexing the record at main.py:52 and main.py:54 raises no `KeyError` for it. With a `None` link, `.replace` at main.py:94 raises later, inside the `try`, and that live session ends Aborted.
- LiveTracking.Tag: the match id is a string, so `str(match_id)` is the id itself. Ids of other Python types are not modelled.
- A save that raises is modelled as not having been logged. Whether the database kept part of the write is not known.
- Scraped records are maps to JSON-like values. Floating-point values and non-dictionary scraper results are not modelled.
- DateFormat.Parse: only ASCII digits count as digits. Python's `\d` also accepts other Unicode decimal digits.
- DateFormat.FormatDate: years below 1000 are padded to four digits. The C library's `%Y` may print them without padding, but such dates never arise from today's clock.
- Calendar.SecondsBefore: takes deltas of at most one day, which covers the twenty-minute subtraction the code makes.
