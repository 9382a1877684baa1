# Verified model of nidaro's mirrors

nidaro mirrors iCloud, Google Calendar and WhatsApp into one household database and expands
the calendar when it is read. This project models that machinery in Dafny and proves what it
keeps over whole histories: what a mirror holds after any interleaving of server edits and sync
runs, what a stored cursor stands for, that a write never overwrites somebody else's edit, that a
window of the calendar shows every occurrence and no other, that the browser supervisor accounts
for every client, and that encrypted credentials behave like a plain map through key rotation.

Code that changes state step by step is modelled as classes and loops and proved against
specification functions; the theorems are lemmas about those functions and about runs of steps.

| module | what it models |
|---|---|
| `Wrappers`, `ConnectorModels` | results, records, payload validation |
| `MirrorFold`, `CalendarStore`, `SyncRunner` | a record batch as a fold over mirrors; the events table and service that perform it; the runner's routing by record type and when it is invisible |
| `CursorRules`, `SyncSweep`, `SweepCadence` | what happens to a stored cursor after a run; the sweep over due configs; its cadence over histories |
| `IcloudServer`, `IcloudSync`, `IcloudBatch`, `IcloudConvergence`, `IcloudRuns`, `IcloudGaps` | a CalDAV server as an edit history with tokens as positions (RFC 6578), the connector, one run's batch, the invariant, whole histories, where extra mirrors come from |
| `ExternalIds`, `GoogleEvents`, `GoogleSync`, `GoogleTurns`, `GoogleRuns`, `GoogleWorld`, `GoogleExtras` | identities, event mapping, the paged sync with its 410 restart, how turns and runs end, what a token promises, whole histories, mirrors left behind |
| `GoogleMerge`, `GoogleWrites`, `GoogleWriteService` | the bodies of updates and new events, `If-Match` against concurrent editors, the write service |
| `WhatsAppStaging`, `WhatsAppDrain` | the staging table and its drain, whole histories |
| `Zones`, `Recurrence`, `CalendarRange`, `MonthGrid` | zones as offset transitions, expansion, the range query and repeat marker, the page's windows |
| `SupervisorTrace`, `ChromiumSupervisor` | the supervisor's awaits as an automaton; the class whose runs it accepts |
| `CredentialStore`, `CredentialHistory` | ideal encryption under a key ring; whole histories with interrupted rotations |
| `LineFraming` | waiting for a matching line of a growing file |

## How histories are stated

A *world* holds the server's history, the stored cursor and the mirrors; a *step* is an edit or a
run, during which more edits may happen. The cursor is saved before the batch is applied
(`src/nidaro/connectors/service.py:84`, `src/nidaro/connectors/runner.py:119-129`), and nothing makes
the pair atomic, so the worlds are those in which the batch of every completed run is applied.
Assumptions about a server are written as `Honest…` predicates on its answers: an incremental
answer mentions everything changed since its token, a full one everything alive (for Google, inside
the horizon), and what is mentioned is in its state at the new token. Answers that fail in any of the
ways the code distinguishes are unconstrained. Google event histories assume one account per
address and account and calendar names without a slash; an iCloud identity lives at one home place.

Where the code and its own words differ, the model follows the code:

- `src/nidaro/connectors/google_calendar/connector.py:15-18` says the cursor entry of an account with a
  dead grant drops out. That holds beside an account that synced
  (`GoogleWorld.SkippedBesideSyncedDropsOut`); when every account is skipped the run names no
  cursor and the old entries stay (`GoogleWorld.AllSkippedKeepsCursor`).
- `src/nidaro/connectors/google_calendar/client.py:161-163` speaks of a 412 instead of clobbering, but
  the header is only sent for a non-empty etag. `GoogleWrites.LandsIffUnchanged` has the exact
  condition and `GoogleWrites.EditLostWithoutEtag` shows what happens outside it.
- `scripts/cdp-wait.py:95-97` offers the printed offset for resuming; after a timeout it can lie inside
  a line. `LineFraming.ResumeAgreesIff` says exactly when resuming there is harmless.
- `_shift_month` is right only from the current month to a bound 18 to 20 months ahead
  (`MonthGrid.ShiftMonthExact`). The page sends any offset, its Previous link `o - 1`
  (`src/nidaro/web/templates/calendar_main.html:7`), and every negative one shows too early a month
  (`MonthGrid.NegativeOffsetTooEarly`): today in any May, one month back is March.
- `src/nidaro/calendar/service.py:65-67` asks callers to re-apply an aborted batch; after a sweep the
  cursor is past it and nothing does (`SyncSweep.AbortedLandingIsNotRetried`).

## Model

| member | source | states |
|---|---|---|
| IcloudRuns.MirrorsComplete | src/nidaro/connectors/icloud_calendar.py:305-346 | over every history of edits and polls, mixing honoured, lost and unsupported tokens, refusals and failures: once a calendar is up to date every event shown on the server is mirrored with current content, and an extra mirror is exactly one dropped by a living href or stranded by a full listing |
| IcloudRuns.ShowsServerFrom | src/nidaro/connectors/icloud_calendar.py:305-346 | the same from any state the invariant holds in, not only from nothing |
| IcloudRuns.MirrorsConverge | src/nidaro/connectors/icloud_calendar.py:305-377 | with honoured tokens and no fetched href dropping an identity, an up-to-date calendar's mirrors equal the server's non-cancelled events |
| IcloudRuns.ConvergesFrom | src/nidaro/connectors/icloud_calendar.py:305-377 | the same from any exact state |
| IcloudRuns.ExactIffNothingDropped | src/nidaro/connectors/icloud_calendar.py:339-345 | the condition is exact: such a poll leaves its calendar exact if and only if no living href it fetched left out an identity mirrored before |
| IcloudGaps.ExtraMirrorsWereExpunged | src/nidaro/connectors/icloud_calendar.py:311-346 | over every history, an extra mirror of an up-to-date calendar belongs to an href that lost it in the gap between the calendar's last report, which no refusal erases, and the exchange that passed it over: a full listing for want of a token unless a fetched home left it out, and by an expunge inside the gap if living hrefs keep their identities |
| IcloudGaps.ExtraMirrorsLostFrom | src/nidaro/connectors/icloud_calendar.py:311-346 | the same from any sound state |
| IcloudGaps.VisitKeepsGaps | src/nidaro/connectors/icloud_calendar.py:310-345 | any honest visit keeps the chronicle: an unexcused mirror had a living home at the last report, an excused one a gap that explains it |
| IcloudRuns.MoveKeptIffNewVisitedLater | src/nidaro/connectors/icloud_calendar.py:310-345 | one home per identity is needed, at this price: an event that changed calendars is mirrored after the run exactly if its new calendar is visited after its old one |
| IcloudRuns.ReplayIsRun | src/nidaro/connectors/icloud_calendar.py:305-346 | landing a completed run's one batch gives the mirrors of landing each calendar's visit in turn |
| IcloudConvergence.VisitKeepsInv | src/nidaro/connectors/icloud_calendar.py:310-345 | any honest visit keeps the invariant tying mirrors, href memory and token to the server's history |
| IcloudConvergence.EditsKeepInv | src/nidaro/connectors/icloud_calendar.py:305-346 | edits on the server between runs keep it |
| IcloudBatch.TurnDecides | src/nidaro/connectors/icloud_calendar.py:327-345 | what one calendar's records say of an identity, in terms of the server's resource at its home and the remembered hrefs |
| IcloudSync.MergeTombstones | src/nidaro/connectors/icloud_calendar.py:262-276 | both shapes of a 404 end up deleted and nothing with an etag does |
| IcloudSync.RecordsForResource | src/nidaro/connectors/icloud_calendar.py:349-377 | every event gives a record in order, cancelled ones a tombstone left out of the href memory |
| IcloudSync.SyncCalendar | src/nidaro/connectors/icloud_calendar.py:310-345 | the in-place loop over deletions and fetched resources equals the specified turn, for every kind of answer |
| IcloudSync.Sync | src/nidaro/connectors/icloud_calendar.py:305-346 | the run over all calendars equals the turns one after another, and is raised by the first that is not answered |
| IcloudSync.FirstUnansweredDecides | src/nidaro/connectors/icloud_calendar.py:232-243 | a refusal of the credentials rejects the cursor, anything else that breaks off only raises, and a run answered throughout succeeds and names a next cursor |
| IcloudRuns.StoppedPollLeaves | src/nidaro/connectors/service.py:76-88 | a poll that stops early lands nothing: stopped by a refusal it leaves no cursor, by a broken calendar the cursor it started from |
| GoogleWorld.CursorNeverAhead | src/nidaro/connectors/google_calendar/connector.py:67-151 | over every history, each stored token is one at which every event inside the last full listing's horizon, or changed since, is mirrored in its state at that token |
| GoogleWorld.RunOverKeeps | src/nidaro/connectors/google_calendar/connector.py:67-99 | during a run, new entries and untouched old ones keep that promise account by account |
| GoogleWorld.AllSkippedKeepsCursor | src/nidaro/connectors/google_calendar/connector.py:86-99 | when every account's grant is dead the stored cursor stays as it was |
| GoogleWorld.SkippedBesideSyncedDropsOut | src/nidaro/connectors/google_calendar/connector.py:86-99 | beside an account that synced, a dead grant's entry leaves the cursor |
| GoogleExtras.UnbrokenChainHasNoExtras | src/nidaro/connectors/google_calendar/connector.py:67-151 | over every history that starts without mirrors of an account and lists it in full once, each of its mirrors is its event's state at the stored token, cancelled ones being gone |
| GoogleExtras.ResetKeepsCancelled | src/nidaro/connectors/google_calendar/connector.py:101-112 | after a 410 an event the restarted listing does not read keeps its mirror, so one cancelled meanwhile stays unless it had none |
| GoogleExtras.FullListingRightIff | src/nidaro/connectors/google_calendar/connector.py:128-151 | after a full listing a mirror is right exactly if its event was read or it was right already |
| GoogleExtras.RunOverChains | src/nidaro/connectors/google_calendar/connector.py:67-99 | a run carries an account's chain on, whatever its other accounts do |
| GoogleRuns.ListingSpeaks | src/nidaro/connectors/google_calendar/connector.py:133-151 | the records of a finished paging speak of exactly the events on its pages, each in its one state, and of no other account's |
| GoogleRuns.FullListingHandsOut | src/nidaro/connectors/google_calendar/connector.py:128-151 | a full listing hands out every event inside its horizon as of its new token |
| GoogleEvents.HorizonIsAYear | src/nidaro/connectors/google_calendar/connector.py:130-132 | the horizon of a full listing lies a year back, give or take what the zone's offset varies by |
| GoogleRuns.IncrementHandsOut | src/nidaro/connectors/google_calendar/connector.py:133-151 | an incremental listing carries that promise from its token to the next |
| GoogleRuns.TurnKeeps | src/nidaro/connectors/google_calendar/connector.py:101-112 | so does an account's turn, 410 in mid-paging and restart included |
| GoogleSync.SyncAccount | src/nidaro/connectors/google_calendar/connector.py:114-151 | the paging loop equals its recursive specification for every script of answers |
| GoogleSync.Convert | src/nidaro/connectors/google_calendar/connector.py:137-142 | a page converts event by event, or fails at the first event without a start |
| GoogleSync.Sync | src/nidaro/connectors/google_calendar/connector.py:67-99 | the run equals the accounts' turns in order, skipping dead grants and raising at the first other failure |
| GoogleTurns.ListingEnds | src/nidaro/connectors/google_calendar/connector.py:133-151 | read off the answers alone: the first one that does not continue the paging decides how a listing ends, and its records are those of all its pages |
| GoogleTurns.TurnEnds | src/nidaro/connectors/google_calendar/connector.py:101-112 | at a 410 the turn is that of a full listing of the answers after it, a second 410 raises a stale cursor; a dead grant skips the account; an API error, an answer that never comes, an event without a start and a last page without a sync token raise |
| GoogleTurns.ConvertsIff | src/nidaro/connectors/google_calendar/mapping.py:118-157 | a page converts exactly if every event is cancelled or has a start, and then event by event in order |
| GoogleTurns.FirstRaisedDecides | src/nidaro/connectors/google_calendar/connector.py:74-99 | the first account that raises raises the run with its own error |
| GoogleTurns.RunDelivers | src/nidaro/connectors/google_calendar/connector.py:74-99 | otherwise the run delivers the records of the accounts that synced, and its cursor holds exactly their entries, none if none synced |
| GoogleTurns.NextRunResumes | src/nidaro/connectors/google_calendar/connector.py:74-80 | the next run starts such an account from its new token, and no other calendar under the same address |
| GoogleWrites.NoLostUpdate | src/nidaro/connectors/google_calendar/writes.py:106-120 | over every interleaving of updates and outside edits, a stored update merged from an etag-carrying version replaced exactly that version and amended only what it governs |
| GoogleWrites.LandsIffUnchanged | src/nidaro/connectors/google_calendar/client.py:151-172 | an update is stored exactly when nothing was stored since its fetch, or the fetched version has no etag |
| GoogleWrites.EditLostWithoutEtag | src/nidaro/connectors/google_calendar/client.py:164-172 | without an etag any edit made in between is overwritten in every key the update leaves alone |
| GoogleWrites.EditSurvives | src/nidaro/connectors/google_calendar/writes.py:106-120 | a value anybody stored survives every later update that does not govern its key |
| GoogleMerge.MergeEventUpdate | src/nidaro/connectors/google_calendar/mapping.py:214-246 | the key-by-key rewriting gives the merged body, and fails exactly for a mode flip with no start to go by |
| GoogleMerge.MergedAmends | src/nidaro/connectors/google_calendar/mapping.py:222-246 | the merged body holds no server-managed key, what is asked under governed keys and the fetched value under all others |
| GoogleMerge.SentBack | src/nidaro/connectors/google_calendar/mapping.py:53-62 | of the fetched event the eight server-managed keys are left out and every key no request can name is sent back as it was |
| GoogleMerge.ModesAgreeIff | src/nidaro/connectors/google_calendar/mapping.py:229-245 | when start and end are both dates or both times after an update: exactly if it flips, or they were and none is mixed in |
| GoogleMerge.ModeAsRequested | src/nidaro/connectors/google_calendar/mapping.py:229-243 | the event ends in the requested mode, or keeps its own |
| GoogleMerge.RepeatIsIdempotentIff | src/nidaro/connectors/google_calendar/mapping.py:230-245 | repeating a request on its own result changes nothing exactly when a flip did not drop a requested end |
| GoogleMerge.BuildEventBody | src/nidaro/connectors/google_calendar/mapping.py:174-211 | key by key a new event's body holds the request, its weekly rule and guests if any, the marker and nothing else; an all-day one without an end gets the next day as its exclusive end |
| GoogleMerge.NewEventReachesEveryone | src/nidaro/connectors/google_calendar/mapping.py:190-211 | it invites exactly the attendees, repeats on exactly the weekdays and carries the marker |
| GoogleWriteService.GoogleCalendarWriteService.UpdateEvent | src/nidaro/connectors/google_calendar/writes.py:106-120 | result, remote event and mirrors after get, merge, put and landing with others editing in between; no other event or household changes |
| GoogleWriteService.GoogleCalendarWriteService.CreateEvent | src/nidaro/connectors/google_calendar/writes.py:78-104 | a created event's mirror is the request read back; recurring requests and households without accounts are refused with nothing changed |
| GoogleWriteService.GoogleCalendarWriteService.DeleteEvent | src/nidaro/connectors/google_calendar/writes.py:122-139 | exactly the event's own mirror goes, also when Google has none left (410), and the result says whether there was one; an API error or an unknown account changes nothing |
| GoogleWriteService.GoogleCalendarWriteService.LandAnswer | src/nidaro/connectors/google_calendar/writes.py:141-158 | Google's answer goes through the sync's own path and is read back, or the landing is reported missing |
| GoogleWriteService.ConflictIffEdited | src/nidaro/connectors/google_calendar/writes.py:114-119 | an update of an etag-carrying event conflicts exactly when somebody stored a state in between, and then changes nothing |
| GoogleWriteService.NoEtagNeverConflicts | src/nidaro/connectors/google_calendar/client.py:164 | without an etag, or with an empty one, the put is unconditional |
| GoogleWriteService.UpdateRefusedIff | src/nidaro/connectors/google_calendar/mapping.py:229-233 | an update is refused exactly if it asks for all-day mode while neither it nor the event has a start |
| GoogleWriteService.CancelledAnswerDropsMirror | src/nidaro/connectors/google_calendar/writes.py:148-158 | a cancelled answer is reported as not landed, and its mirror is gone |
| GoogleWriteService.UpdateShowsWhatGoogleStored | src/nidaro/connectors/google_calendar/writes.py:120-158 | a stored update changes only its own event's mirror and succeeds exactly when Google's answer has one |
| GoogleWriteService.UpdateTakesEffect | src/nidaro/connectors/google_calendar/writes.py:106-120 | after a success the family reads the requested texts, mode, start and end, and what was not requested as before; a flip without a start goes by the existing date |
| GoogleWriteService.FlipLastsOneDay | src/nidaro/connectors/google_calendar/mapping.py:230-238 | a flipped event reads back in the requested mode and ends one day after its start, at the next midnight or a day on by its start's own clock |
| GoogleWriteService.CreatedItem | src/nidaro/connectors/google_calendar/mapping.py:118-211 | round trip: translating a new event's stored body back gives the request, dates pinned to the household's midnight |
| ExternalIds.SplitUndoesJoin | src/nidaro/connectors/google_calendar/mapping.py:82-92 | splitting undoes joining exactly for non-empty parts whose first two hold no slash |
| ExternalIds.JoinUndoesSplit | src/nidaro/connectors/google_calendar/mapping.py:86-92 | joining undoes any split that succeeds |
| ExternalIds.ExternalIdInjective | src/nidaro/connectors/google_calendar/mapping.py:82-83 | two events share an identity only if they are one event of one account |
| ExternalIds.AccountFor | src/nidaro/connectors/google_calendar/writes.py:169-178 | the search finds the connected account that wrote a mirror, and only that one |
| MirrorFold.LastRecordWins | src/nidaro/calendar/service.py:70-88 | a batch leaves every identity as its last relevant record says and touches no other |
| MirrorFold.AbortsIffMalformed | src/nidaro/calendar/service.py:70-88 | a batch aborts exactly when some live calendar record fails validation |
| MirrorFold.Idempotent | src/nidaro/calendar/service.py:50-89 | applying a batch again changes nothing |
| MirrorFold.AbortLandsCommittedPrefix | src/nidaro/calendar/service.py:65-67 | an aborted batch has landed exactly the records before the first malformed one |
| MirrorFold.RecoverAfterAbort | src/nidaro/calendar/service.py:64-68 | re-applying a repaired batch that mentions every identity already touched ends where it alone would have |
| MirrorFold.ForgottenIdentityIsNotRecovered | src/nidaro/calendar/service.py:64-68 | that requirement is needed: a forgotten identity keeps what the aborted batch gave it |
| MirrorFold.RecoversIff | src/nidaro/calendar/service.py:64-68 | the exact condition: recovery holds if and only if the aborted batch changed no identity the repaired one leaves out |
| MirrorFold.LandConcat | src/nidaro/calendar/service.py:70-89 | a batch in two halves is the first, then the second on top, counts added |
| MirrorFold.CountsSumToLength | src/nidaro/calendar/service.py:69-89 | applied, removed and skipped sum to the batch length |
| MirrorFold.CountsAre | src/nidaro/calendar/service.py:69-89 | applied counts the live events, removed the tombstones that found a mirror where they stood, skipped the rest |
| CalendarStore.CalendarService.ApplyExternalRecords | src/nidaro/calendar/service.py:50-89 | on the table, a batch is the fold on one household's mirrors; human events and other households stay |
| CalendarStore.CalendarService.GetMirror | src/nidaro/calendar/service.py:43-48 | finds a household's mirror of an identity, if any |
| CalendarStore.CalendarRepository.UpsertMirror | src/nidaro/calendar/repository.py:95-124 | one mirror per identity is kept; a rewrite keeps the row's id, status and participants, an insert is fresh |
| CalendarStore.CalendarRepository.RemoveMirror | src/nidaro/calendar/repository.py:126-134 | exactly that mirror goes; false exactly when there was none |
| CalendarStore.CalendarRepository.FindMirror | src/nidaro/calendar/repository.py:137-147 | the scan finds the identity's row in that household |
| CalendarStore.PositionIsLookup | src/nidaro/calendar/repository.py:137-147 | under the unique index, that row is the identity's mirror |
| SyncRunner.GroupByType | src/nidaro/connectors/runner.py:120-122 | every record lands in its type's group, in order, once |
| SyncRunner.LandByType | src/nidaro/connectors/runner.py:119-140 | the runner lands the calendar group and counts every other record as skipped |
| SyncRunner.RoutingIsTransparent | src/nidaro/connectors/runner.py:119-140 | routing changes neither mirrors nor totals when every tombstone is a calendar event |
| SyncRunner.ForeignTombstoneSurvivesRouting | src/nidaro/connectors/runner.py:123-127 | otherwise it does: a tombstone of another type is skipped and its mirror stays |
| SyncRunner.RoutingTransparentIff | src/nidaro/connectors/runner.py:119-140 | the exact condition: if and only if every mirror a foreign tombstone met is removed by a calendar tombstone before a live record overwrites it, the overwriting mattering for the totals only |
| SyncRunner.RoutingDivergesBy | src/nidaro/connectors/runner.py:119-140 | in general the routed mirrors are the direct ones and the stale ones, each a removal counted as a skip |
| SyncRunner.CaughtUpTombstoneLeavesNoTrace | src/nidaro/connectors/runner.py:123-127 | a foreign tombstone may meet a mirror and routing still be transparent |
| CalendarRange.PrefilterExact | src/nidaro/calendar/repository.py:31-49 | expanding only what the query keeps loses nothing for all events and windows, if and only if no transition of the zone crosses a midnight |
| CalendarRange.LosesNothingWhenSplit | src/nidaro/calendar/repository.py:38-45 | for one window its two midnights are enough |
| CalendarRange.RangeShowsTheHousehold | src/nidaro/calendar/service.py:27-33 | what is read is exactly the views that tell of some row of the household occurring on their date in the window, strictly ordered; refused beyond 62 days |
| CalendarRange.RepeatIds | src/nidaro/web/routes/calendar.py:314-319 | the counting loop returns the ids seen more than once |
| CalendarRange.RepeatMarkerExact | src/nidaro/web/routes/calendar.py:119-123 | an event visible in a window is marked as repeating over the padded window exactly when it has weekdays |
| Zones.MidnightsSplitIff | src/nidaro/calendar/recurrence.py:67-71 | every midnight separates instants by local date if and only if no transition carries the clock back over or past one |
| Zones.LocalIs | src/nidaro/calendar/recurrence.py:77-79 | the clock at an instant shows the offset of the last transition before it |
| Zones.UtcIsEarliest | src/nidaro/calendar/recurrence.py:69-71 | a reading no transition skips is resolved to the earliest instant whose clock shows it |
| Zones.UtcOfSkipped | src/nidaro/calendar/recurrence.py:69-71 | one that is skipped is resolved with the offset before the jump |
| Recurrence.ExpandEventsIs | src/nidaro/calendar/recurrence.py:74-134 | the result holds exactly the views that tell of an event occurring on their date in the window, strictly sorted |
| Recurrence.DepictsIff | src/nidaro/calendar/recurrence.py:84-105 | a view is determined by what it tells: its event, and on its own date the local clock readings of start and end, none if all-day |
| Recurrence.OneDayEventShownExactly | src/nidaro/calendar/recurrence.py:77-105 | an event within one local day shows exactly its local start and end |
| Recurrence.ExpandEventsAscend | src/nidaro/calendar/recurrence.py:117-134 | any two views of the result ascend by date, on one date by clock, then by id |
| Recurrence.ValidWeekdaysAreDays | src/nidaro/calendar/schemas.py:69-73 | listed weekdays validate exactly if each is the weekday of some day |
| Recurrence.IdentityOnce | src/nidaro/calendar/recurrence.py:74-122 | each event and date at most once |
| Recurrence.WindowsConcatenate | src/nidaro/calendar/recurrence.py:74-134 | the expansion over [a, c] is that over [a, b] followed by that over [b + 1, c] |
| Recurrence.OrderIndependent | src/nidaro/calendar/recurrence.py:117-122 | the order of the events does not matter |
| Recurrence.DaysInWindow | src/nidaro/calendar/recurrence.py:107-129 | the day-stepping loop yields the window's days on those weekdays, in order |
| Recurrence.FirstWeekdayOnOrAfter | src/nidaro/calendar/recurrence.py:48-59 | the loop ends, within a week, on the first such day |
| Recurrence.AnchorIsFirstOccurrence | src/nidaro/calendar/recurrence.py:48-55 | a series anchored there has its start as its first occurrence |
| MonthGrid.FirstDayIsOrdinal | src/nidaro/web/routes/calendar.py:246-247 | the month arithmetic used here is the Gregorian ordinal's closed form |
| MonthGrid.ShiftMonthExact | src/nidaro/web/routes/calendar.py:246-247 | for every date and every offset the shift is right if and only if 0 <= o <= a bound of 18 to 20 that the month and the leap years decide |
| MonthGrid.ShiftMonthWithinBound | src/nidaro/web/routes/calendar.py:246-247 | it is right for every date and every offset from 0 to 18 |
| MonthGrid.OffsetPastBoundTooLate | src/nidaro/web/routes/calendar.py:246-247 | every offset past the bound shows a later month |
| MonthGrid.NegativeOffsetTooEarly | src/nidaro/web/routes/calendar.py:246-247 | every negative offset, from every date, shows an earlier month than asked for |
| MonthGrid.MonthGridShape | src/nidaro/web/routes/calendar.py:231-243 | the month window runs Monday to Sunday around its whole month in 28, 35 or 42 days |
| MonthGrid.WeekWindow | src/nidaro/web/routes/calendar.py:239-241 | the week window is the Monday to Sunday week holding the same day o weeks on |
| MonthGrid.DayWindow | src/nidaro/web/routes/calendar.py:242-243 | the day window is that one day |
| MonthGrid.WeekdaysAnchored | src/nidaro/web/routes/calendar.py:236-240 | weekdays are the calendar's: 1 January of year 1 a Monday, that of 2000 a Saturday |
| MonthGrid.PaddedWindowIsInRange | src/nidaro/web/routes/calendar.py:119-123 | every view's padded window passes the 62-day check |
| MonthGrid.Weeks | src/nidaro/web/routes/calendar.py:226 | the grid splits into full weeks |
| WhatsAppDrain.ExactlyOnce | src/nidaro/connectors/whatsapp/connector.py:50-90 | over every interleaving of staging, syncs and failures, what was drained is the household's events up to its cursor, in id order, each wamid once, edits and revokes under types of their own |
| WhatsAppDrain.EnoughSyncsDrainAll | src/nidaro/connectors/whatsapp/repository.py:50-65 | k syncs drain everything once 500 * k covers what is left |
| WhatsAppDrain.ClearedCursorRedelivers | src/nidaro/connectors/whatsapp/connector.py:60-68 | a spoiled cursor costs one sync; the ones after it deliver every row again |
| WhatsAppDrain.AtMostOncePerClearing | src/nidaro/connectors/whatsapp/connector.py:50-68 | no message is delivered more often than once per clearing and once besides |
| WhatsAppDrain.PendingIsSuffix | src/nidaro/connectors/whatsapp/repository.py:59-65 | what the query returns is the tail of the household's rows past the mark |
| WhatsAppStaging.WhatsAppEventRepository.Stage | src/nidaro/connectors/whatsapp/repository.py:20-48 | a wamid is staged once whoever stages it; the table stays in id order |
| WhatsAppStaging.WhatsAppEventRepository.Unprocessed | src/nidaro/connectors/whatsapp/repository.py:50-65 | the first rows of the household past an id, at most the limit |
| WhatsAppStaging.WhatsAppConnector.Sync | src/nidaro/connectors/whatsapp/connector.py:50-68 | a run reads the table, writes nothing, and rejects a cursor that is no row id |
| SupervisorTrace.EveryClientAccountedFor | src/nidaro/chromium/supervisor.py:73-136 | once a run is over each connected client had one on_attach and one close, and an on_detach exactly when its ping failed, save for one cut off by a cancellation |
| SupervisorTrace.CutOnlyInClose | src/nidaro/chromium/supervisor.py:128-136 | only a cancellation during a close cuts one off |
| SupervisorTrace.AtMostOneOpen | src/nidaro/chromium/supervisor.py:73-136 | at every moment at most one client is connected and not closed, at the end none |
| SupervisorTrace.DetachFollowsLoss | src/nidaro/chromium/supervisor.py:119-136 | on_detach comes right after the close of a client whose ping just failed |
| SupervisorTrace.StopsWithinThreeAwaits | src/nidaro/chromium/supervisor.py:91-93 | at most three awaits follow the one during which stop was called |
| SupervisorTrace.OverOnlyIfEnded | src/nidaro/chromium/supervisor.py:73-136 | a run is over only by a stop, a cancellation or a sleep that raises: no unreachable browser, failed ping or failing consumer ends it |
| SupervisorTrace.SleepLengths | src/nidaro/chromium/supervisor.py:95-122 | every sleep is a ping interval, or the backoff of its place in its own outage |
| SupervisorTrace.BackoffClosedForm | src/nidaro/chromium/supervisor.py:107-108 | the k-th retry delay is poll * 2^k capped, exactly if k > 0 or poll is within the cap |
| ChromiumSupervisor.ChromiumSupervisor.Run | src/nidaro/chromium/supervisor.py:73-89 | however every await ends and whenever stop is called, the run is an accepted trace that may end there, with no client held |
| ChromiumSupervisor.ChromiumSupervisor.AttachNext | src/nidaro/chromium/supervisor.py:95-117 | attaching ends with a client held and handed over, stopped in an outage, or raising |
| ChromiumSupervisor.ChromiumSupervisor.Watch | src/nidaro/chromium/supervisor.py:119-126 | watching ends when stopped, when the client was lost, or raising |
| ChromiumSupervisor.ChromiumSupervisor.Lose | src/nidaro/chromium/supervisor.py:128-136 | a lost client is let go, closed, then announced |
| CredentialHistory.RefinesPlainMap | src/nidaro/connectors/service.py:203-246 | over every history of set, delete, interrupted rotations and rekeying that keeps the keys in use, get is a plain map's |
| CredentialHistory.ReadsPlainIffKeyOnRing | src/nidaro/connectors/crypto.py:39-43 | without the rule, exactly while the row's own key is on the ring |
| CredentialHistory.DroppingAKeyInUseLosesIt | src/nidaro/connectors/service.py:225-232 | dropping the primary of a write made after the rotation loses that secret |
| CredentialHistory.RotationFreesOldKeys | src/nidaro/connectors/service.py:225-246 | a completed rotation leaves every secret readable by the primary alone |
| CredentialHistory.RotationNeverBlocks | src/nidaro/connectors/service.py:235-242 | under the rule no row stops a rotation |
| CredentialHistory.WithoutKeyNothingReads | src/nidaro/connectors/service.py:248-252 | while no key is configured reads raise and writes have no effect |
| CredentialStore.ConnectorCredentialService.Rotate | src/nidaro/connectors/service.py:225-246 | whatever row it dies after, the rows done are under the primary with their secrets, the others untouched; success exactly when all are done |
| CredentialStore.TryKeysIff | src/nidaro/connectors/crypto.py:39-43 | a token opens exactly when its key is on the ring |
| CredentialStore.ConnectorCredentialService.Get | src/nidaro/connectors/service.py:212-216 | missing key, missing row, unreadable row or the secret |
| CredentialStore.ConnectorCredentialService.Set | src/nidaro/connectors/service.py:203-210 | writes one row under the primary, or raises and writes none |
| SweepCadence.StampsAreACadenceApart | src/nidaro/connectors/service.py:156-169 | over every history, a completed run a sweep started is stamped at least its cadence after every earlier completed run of the config |
| SweepCadence.SweepListsIff | src/nidaro/connectors/service.py:156-169 | over every history, a sweep lists a config if and only if it was last configured enabled and no run of it completed within its last pollSeconds seconds |
| SweepCadence.NewConfigIsListed | src/nidaro/connectors/service.py:156-169 | a newly connected config is listed by the next sweep |
| SweepCadence.StaysDue | src/nidaro/connectors/service.py:72-75 | a due config stays due until a run of it completes or it is reconfigured |
| SweepCadence.FailureKeepsDue | src/nidaro/connectors/runner.py:157-163 | a config whose run raised is still due after the sweep |
| SyncSweep.SweepIsolates | src/nidaro/connectors/runner.py:143-165 | a sweep leaves each config's cursor and stamp as its own run alone would |
| SyncSweep.ReportCountsAll | src/nidaro/connectors/runner.py:143-165 | for any connector filter, every wanted config is reported as often as listed, as an outcome exactly when its run and landing succeeded and as an error otherwise; no other is |
| SyncSweep.SweepMirrorsIsolated | src/nidaro/connectors/runner.py:150-164 | a household's mirrors after a sweep depend on its own configs' runs only |
| SyncSweep.SucceedsIff | src/nidaro/connectors/runner.py:93-140 | a run succeeds exactly for an existing enabled config with readable credentials, a connector that returns and live calendar records that all validate |
| SyncSweep.DisabledNeverRuns | src/nidaro/connectors/runner.py:104-106 | a config that is gone or disabled is left alone |
| SyncSweep.AbortedLandingIsNotRetried | src/nidaro/connectors/runner.py:118-133 | a batch that aborts is reported as an error, yet its cursor is stored and its config stamped and not due; its records before the malformed one have landed |
| SyncSweep.ConnectorSyncServices.SyncDue | src/nidaro/connectors/runner.py:143-165 | state, report and every household's mirrors after the loop over the due configs; human events untouched |
| SyncSweep.ConnectorSyncServices.Due | src/nidaro/connectors/service.py:156-169 | every due config once, and no other |
| SyncSweep.ConnectorSyncServices.Sync | src/nidaro/connectors/service.py:76-89 | the cursor is saved, kept or cleared, and the config, if there is one, stamped only by a completed run |
| SyncSweep.ConnectorSyncServices.SyncConnector | src/nidaro/connectors/runner.py:93-140 | a missing or disabled config and unreadable credentials raise before anything is stored; a completed run's records are landed by type in its household |
| LineFraming.WaitForEvent | scripts/cdp-wait.py:62-104 | however appends are split, a match is the first matching complete line at or after the offset with the offset just past it; a timeout means none was visible |
| LineFraming.ChainVisitsEveryMatch | scripts/cdp-wait.py:62-104 | chained matched waits yield every matching line once, in order |
| LineFraming.LinesTile | scripts/cdp-wait.py:82-93 | lines tile the file, each ending at its only newline |
| LineFraming.ResumeAgreesIff | scripts/cdp-wait.py:100-101 | resuming after a timeout finds what waiting on would have, exactly when the offset is a line start, or neither the whole line nor its rest matches, or it is never completed |
| LineFraming.SplitLineIsMissed | scripts/cdp-wait.py:84-101 | a wait resumed inside a half-written line misses the line and takes its rest for a line of its own |
| LineFraming.HalfWrittenEventIsMissed | scripts/cdp-wait.py:84-101 | such a file, deadline and event |

## Left out

- Transport, storage engines and encodings (HTTP, CalDAV, CDP, OAuth, SQL, JSON, XML, SHA-256 hashes, Fernet): servers, tables and the browser are abstract state with failures chosen freely.
- iCalendar parsing: `parse_events` is a resource that already is a list of identities, cancellations and fields.
- A crash or a second run between saving a cursor and applying its batch: the code does not make the pair atomic, so the histories are those whose batches are applied.
- Observation times and content hashes of records: they are carried along and decide nothing in the code modelled.
- Missing iCloud credentials and a failing list of calendars: they raise as a first calendar that breaks off does.
- The multiget's chunks of 100 hrefs: the fetch is one answer.
- GoogleWorld.CursorNeverAhead: one zone for the household throughout, account addresses not shared between members, and no slash in an account or calendar name; each changes which mirror an event has.
- GoogleWrites.NoLostUpdate: keys a calendar server recomputes beyond the eight the program strips (a sequence number, say) are not modelled; a stored update keeps the rest as sent.
- IcloudGaps.ExtraMirrorsWereExpunged: a listing answered from before the calendar's last report leaves no time between the two; for it only an expunge after that report is claimed.
- GoogleWriteService.GoogleCalendarWriteService.UpdateEvent: a GET or PUT that fails other than by a missing event or a 412 raises and is not modelled; neither are notifications to guests.
- The access-token cache of the Google client: a lookup with a margin, one branch.
- An explicit cursor argument to `ConnectorService.sync`: runs start from the stored cursor.
- The years 1 and 9999 at which `date` overflows: days are unbounded integers.
- The order of an occurrence's participants: they are a set.
- LineFraming.WaitForEvent: byte offsets and newline translation are not modelled, offsets count characters; a file that does not exist yet is one with nothing visible; what `matches` decides about a line is any predicate.
- ChromiumSupervisor.ChromiumSupervisor.Run: a script of choices that runs out cancels, so every finite run is covered and endless ones only by their prefixes.
- The row order of queries where only the set matters (credentials, due configs): the model allows any order.
- Meals, tasks, memory, commitments, conversations, school services, templates, routes other than the calendar page, scheduling and deployment: thin wrappers, user interface and configuration.
