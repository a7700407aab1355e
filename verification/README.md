# Impulse firmware core: verified model

A Dafny model of the decision core of a commitment device, a watch that holds its wearer to a schedule
of commitments and resists being talked out of them. It covers

- the commitment-integrity gate: which schedule changes apply at once, which wait 24 hours of elapsed
  time, the settle records, the queue of loosenings, the emergency pass, and reboots
  (`Integrity`, `IntegrityInvariants`, `Commitment`, `Guarantee`, `PushEffects`, `IntegrityGate`,
  `Standing`, `PushActs`, `PushCounts`, `PromotionActs`,
  `PassLedger`, `PassGrants`, `PassDay`, `Watch`), with the tighten-or-loosen classifier it rests on (`Classify`);
- schedule semantics: civil dates, recurrence, the plan of a day, the search for the next start
  (`CivilDate`, `NextStart`, `DayPlan`, `InsertionSort`, `Events`);
- enforcement: the window in force, output profiles, the near/away verdict, the lost-link rule, and the
  order of calls in one pass of the main loop (`Enforcement`, `EnforcementSafety`, `LostLink`,
  `PhoneAway`, `EnforcementActs`, `MainLoop`, `LoopActs`, `Profiles`, `Proximity`);
- the schedule wire format and its CRC-32, the CRC of section 8 of RFC 1952 (`ScheduleBlob`,
  `BlobMeaning`, `Crc32`);
- the distance estimator of one channel-sounding burst (`CsFuse`).

Code that changes state in place is modelled by classes and loops (`IntegrityState`, `Plan`, `Cursor`,
`Writer`, `ProfileRun`, `ProxState`, `Context`, `LinkTimers`, `Burst`, `Firmware`). Each method is proved
equal to a function on values, and the theorems are about those functions: every step, whole runs, every
interleaving. C integer widths and the truncating division are written out where they can matter
(`Machine`).

The clocks, the radio's link telemetry, the worn sensor, the WiFi state and the day plan's answer are
parameters. Wall-clock writes appear as arbitrary UTC arguments of each call. Powered-on time, which no
code reads, is an observer's clock in `Watch`.

Verify with `dafny verify dfyconfig.toml`, or with all `.dfy` files on one command line.

## Where code and comments disagree

The model follows the code; each point but the last has a lemma.

- A pass is described as a one-day cancellation. It replaces the stored event, so a repeating commitment
  is cancelled on every date (`PassDay.PassIsOneDayIff`).
- The pass's noon is said to lie inside its day at every timezone offset. It is noon UTC, and does so
  exactly for offsets in [-12:00, +12:00) (`PassDay.PassLandsOnItsDateIff`).
- Thresholds are said to be clamped to a usable pair. The 16-bit store lets a near override above
  65485 cm invert the band (`Proximity.BandIsOpenIff`). The only caller passes the defaults, so the firmware
  does not reach this.
- The day plan is said to drop the events past its cap. The scan stops at the first new id past 32, so later
  overrides of ids already in the plan are not seen either (`DayPlan.CapNeverBites`,
  `DayPlan.CapLosesAnOverride`). A schedule that loses an override repeats an id, which the stored schedule of
  the watch never does (`IntegrityInvariants.StepKeepsShape`); only the anchor role, which stores a received
  schedule as it is and is not part of this model, can hold one.
- The date functions are said to be valid for any year in the int32 range, and are so exactly there
  (`CivilDate.DaysOfCivil`). The schedule format carries 64-bit instants beyond it, whose year wraps
  (`CivilDate.FarYearWraps`).
- The newer intent is said to win over what waits in the queue. Pushing the stored version back, or one as
  binding, is no change and leaves a queued loosening of it waiting (`PushActs.BindingReplacementIsStoredIff`,
  `PushActs.PushedBackStillLoosens`).
- Promotion is said to run on boot and on every wake. It is called at boot only: results here say what a
  promotion does, and none that one comes.

## Model

| member | source | states |
|---|---|---|
| Commitment.SettledEventsAreKept | src/integrity/integrity.c:264-461 | Main result. In any run of sealing, settling, push decisions, promotions and window shrinks, a settled event is still stored exactly as it was, or there is a first step after which it is no longer settled so, and that step is: a replacement that binds at least as hard at every date and minute; a replacement of a non-active event whose proposed next start is over 24 h off; a deletion of a non-active event whose own next start is over 24 h off; or the promotion of an entry for that event which was in its slot at the start of the run or was queued by an earlier step, with outcome queued, at least 86400 elapsed seconds before |
| Commitment.FirstTouchExists | src/integrity/integrity.c:264-461 | A settled event stays settled and stored unchanged through a run, or some step is the first after which it is not; re-pushing it unchanged is no touch |
| Commitment.FirstTouchIsLicensed | src/integrity/integrity.c:264-461 | The first touch has a licence in the state it was decided in |
| Guarantee.SettledEventsSurviveCalls | src/integrity/integrity.c:264-461 | Main result. The guarantee for whole pushes, whole promotion loops and settle-window writes, in any order and number |
| Guarantee.CallsAreARun | src/integrity/integrity.c:264-461 | A sequence of such calls is the run of all the decisions they take |
| Guarantee.PromotionIsARun | src/integrity/integrity.c:407-461 | The promotion loop from any slot on is the run of its turns |
| Guarantee.CallsKeepSound | src/integrity/integrity.c:264-461 | Over any such calls the tables keep their shape and every settled baseline stays the stored event |
| Guarantee.LivesStaySound | src/main.c:1181-1278 | In every life without a pass, reboots into older saved state included, every settled baseline, live or saved, is the stored event with that id |
| Guarantee.SettledEventsSurviveLives | src/main.c:1181-1278 | Main result. In every such life, an event settled at some moment is settled and stored as it was ever after, or the first happening that ended this is: a push whose first touch of it is a replacement or deletion with one of the reasons; a boot that would promote an entry for it, that very entry having waited a powered-on day; or a boot that restored a record from before it settled |
| Commitment.StepIsLicensed | src/integrity/integrity.c:308-459 | One decision leaves a settled event settled as it is, or has a licence for it |
| Commitment.StepKeepsBaselines | src/integrity/integrity.c:86-158 | Every settled baseline equals the stored event with that id, kept by every step |
| Commitment.SealKeepsBaselines | src/integrity/integrity.c:125-144 | Sealing unknown events adds only baselines that are the stored events |
| Commitment.StepQueues | src/integrity/integrity.c:162-190 | Whatever a step leaves in a queue slot was there before it, or is the entry for its own event, due 86400 s later, and its outcome was queued |
| Commitment.EntriesWereQueued | src/integrity/integrity.c:162-190 | Over any run: every entry in the queue was in its slot at the start, or some step of the run queued that very entry, with outcome queued |
| Commitment.AcceptedEditReopens | src/integrity/integrity.c:146-158 | After an accepted change the event is within the free-edit rule for every further replacement, so the guarantee ends at the first touch |
| IntegrityInvariants.StepKeepsShape | src/integrity/integrity.c:57-219 | Schedule ids, settle ids and queued target ids stay distinct and the tables within 64, 64 and 16 entries, whatever the step |
| IntegrityInvariants.SpendKeepsShape | src/integrity/integrity.c:463-539 | A pass keeps the shape of all tables too |
| IntegrityInvariants.SealAllShape | src/integrity/integrity.c:111-144 | Sealing only adds records, each settled in the stored state, and afterwards every stored event has a record or all 64 are taken |
| IntegrityInvariants.NoteEditShape | src/integrity/integrity.c:146-158 | An edit reopens at most one record, that of its own id; every remaining baseline belongs to another id and is unchanged |
| IntegrityInvariants.UpsertFinds | src/integrity/integrity.c:192-206 | After an upsert the id reads back as the new event if it fitted; every other id reads back as before |
| IntegrityInvariants.DeleteFinds | src/integrity/integrity.c:208-219 | After a deletion the id is gone and every other id reads back as before |
| IntegrityInvariants.CancelShape | src/integrity/integrity.c:162-175 | Cancelling leaves exactly the entries for other targets |
| PushEffects.PushUncoversNothing | src/integrity/integrity.c:308-395 | Main result. A push that lets nothing through by the free-edit or the horizon rule never uncovers a minute: for every date and minute with an active event before it there is one after it (gate, classifier, day plan and lookup composed) |
| PushEffects.PushIsNoLooser | src/integrity/integrity.c:308-395 | After such a push every stored event is still stored, in a version no edit would call a loosening |
| PushEffects.ReportAccounts | src/integrity/integrity.c:308-395 | For a non-rejected push: applied + quarantined + dropped equals the missing stored ids plus the proposed events not classified as no change against the schedule before the push |
| PushEffects.AcceptedMeansAgreement | src/integrity/integrity.c:397-404 | Verdict 0x01 means the stored schedule holds exactly the proposed ids, each pair classified as no change |
| PushEffects.RepushIsIdle | src/integrity/integrity.c:308-404 | Pushing an accepted schedule again applies, queues and drops nothing and leaves the schedule as it is |
| PushEffects.MissingIdsAre | src/integrity/integrity.c:308-315 | The deletions considered are exactly the stored ids not proposed, each once |
| PushActs.TighteningIsStored | src/integrity/integrity.c:347-377 | Main result. In every push that is not refused: a proposed event that binds harder than the stored one, on some date and minute or in some field, is what is stored afterwards, and nothing waits for it |
| PushActs.BindingReplacementIsStoredIff | src/integrity/integrity.c:347-377 | For a replacement that binds at least as hard: it is stored with nothing waiting if and only if it binds harder, or is the stored version and nothing waited before |
| PushActs.PushedBackStillLoosens | src/integrity/integrity.c:360-362 | A concrete push of the stored version that leaves the queued shortening of it in the queue |
| PushActs.EquallyBindingIsLeft | src/integrity/integrity.c:360-362 | A replacement as binding as the stored version, both ways, leaves the stored version and what waits for it alone |
| PushActs.NewEventIsStored | src/integrity/integrity.c:353-377 | A new event that fits the table is stored at once, a cancellation too where baselines are current, and nothing waits for it |
| PushActs.OpenEventIsStored | src/integrity/integrity.c:226-242 | While the settle window of a stored event runs, any replacement is stored at once, or is no change |
| PushActs.FarReplacementIsStored | src/integrity/integrity.c:244-256 | A replacement of an event not in force, with no start within 24 h, is stored at once, or is no change |
| PushActs.LooseningIsHeld | src/integrity/integrity.c:380-394 | Main result. A settled event, and a replacement that does not bind as hard and starts within 24 h or is of the event in force: the stored version stays, and the replacement is what waits for it, due 24 h later, exactly if the queue had room |
| PushActs.MissingEventGoesOrWaits | src/integrity/integrity.c:310-345 | A stored event left out of the proposal is gone, with nothing waiting, if it is not in force and has no start within 24 h; otherwise it stays stored and its deletion waits, exactly if the queue had room |
| PushActs.HorizonIff | src/integrity/integrity.c:244-256 | The horizon rule in starts: not the event in force, and every start after now more than 24 h after now |
| PushActs.PreparedRecord | src/integrity/integrity.c:86-144 | When the decisions start, a stored event is open exactly while its settle window, in minutes since its last edit, still runs; otherwise its baseline is what is stored |
| PushActs.PreparedHasRecord | src/integrity/integrity.c:111-144 | Every stored event then has a record, unless all records are taken |
| PushActs.PutInPush | src/integrity/integrity.c:347-395 | No other decision of a push touches stored version, settle record or waiting entry of a proposed event |
| PushActs.DropInPush | src/integrity/integrity.c:310-345 | The same for a missing event |
| PushActs.RefusedIff | src/integrity/integrity.c:278-306 | A push is refused if and only if it leaves out the event in force or replaces it with one that does not bind as hard |
| PushActs.RefusedTouchesNothing | src/integrity/integrity.c:300-306 | A refused push leaves schedule and queue as they are and answers 0x04 |
| PushActs.AllFit | src/integrity/integrity.c:192-206 | If stored and proposed ids together are at most 64, every proposed event fits when its turn comes |
| PushActs.EverythingHasRoom | src/integrity/integrity.c:177-190 | With a free slot for every earlier decision, a loosening finds one |
| PushActs.EveryDeletionHasRoom | src/integrity/integrity.c:177-190 | The same for deletions |
| PushCounts.AppliedIsWhatLanded | src/integrity/integrity.c:308-395 | The applied counter is the number of missing events gone plus the number of changed events stored as proposed |
| PushCounts.AcceptedIff | src/integrity/integrity.c:397-404 | The verdict on a push that is not refused is 0x01 if and only if every missing event is gone and every changed event is stored as proposed |
| PushCounts.DeletionsMakeRoom | src/integrity/integrity.c:308-345 | Deletions come first: a proposed event fits if the table less what the push deleted, plus the events before it, is below 64 |
| Standing.PutDecides | src/integrity/integrity.c:347-395 | What the decision about a proposed event does to its stored version, settle record and waiting entry: nothing, store and cancel, or queue |
| Standing.DropDecides | src/integrity/integrity.c:310-345 | The same for a missing event: delete and cancel, or queue |
| Standing.StandsElsewhere | src/integrity/integrity.c:308-395 | A decision about one event leaves stored version, record and waiting entry of every other alone |
| PromotionActs.DueEntryTakesEffect | src/integrity/integrity.c:407-461 | Main result. After a promotion a due entry has left the queue and its target is gone (deletion) or is the proposed event (replacement, if the table had room), its record reopened; a one-time replacement with no start left before the search horizon leaves the target alone |
| PromotionActs.EntryHasPlace | src/integrity/integrity.c:192-206 | A replacement of a stored event always has room, and so has any event while stored events and earlier slots together are below 64 |
| PromotionActs.WaitingEntryStays | src/integrity/integrity.c:417-419 | An entry not due stays in its slot, and stored version, record and waiting entry of its target stay as they were |
| PromotionActs.UntargetedStays | src/integrity/integrity.c:407-461 | An event no entry targets is not touched |
| PromotionActs.PromotionsAreCounted | src/integrity/integrity.c:407-461 | The answer is the number of due entries less the lapsed one-time replacements |
| PromotionActs.BootCarriesOut | src/main.c:1201-1278 | A boot does so for every saved entry due by the saved clock, and saves the result |
| PromotionActs.RebootKeepsAPush | src/main.c:1201-1278 | What a push stored is what a boot right after it restores, for every event without a due entry |
| IntegrityGate.ApplyPush | src/integrity/integrity.c:264-405 | The in-place push: final tables are those of the decision sequence, the report counts its outcomes, the verdict follows from the report, and the shape is kept; PushActs says what those decisions do to each event |
| IntegrityGate.Promote | src/integrity/integrity.c:407-461 | The in-place promotion loop performs the turns slot by slot and counts those that applied; PromotionActs says what the turns do |
| IntegrityGate.PromoteOne | src/integrity/integrity.c:414-458 | One turn: not due, expired one-time entry dropped uncounted, or applied with the record reopened (PromotionActs.DueEntryTakesEffect) |
| IntegrityGate.Spend | src/integrity/integrity.c:463-539 | The in-place pass: ageing, refusal without budget or target, upsert of the cancellation, ledger append, remaining budget (PassGrants.PassIsGrantedIff) |
| IntegrityGate.AgeSpends | src/integrity/integrity.c:473-483 | The compaction leaves exactly the spends still in the rolling window, in order |
| IntegrityGate.DropAll | src/integrity/integrity.c:308-345 | The backwards loop over a table it deletes from decides exactly the missing ids |
| IntegrityGate.DropOne | src/integrity/integrity.c:317-344 | One missing event: deleted at once if beyond the horizon, otherwise queued or lost to a full queue; entries before it stay where they are |
| IntegrityGate.PutAll | src/integrity/integrity.c:347-395 | The loop over the proposal decides every proposed event in order |
| IntegrityGate.PutOne | src/integrity/integrity.c:349-394 | One proposed event: no effect, applied, queued, or lost (Standing.PutDecides) |
| IntegrityGate.Rejects | src/integrity/integrity.c:278-306 | The active-event guard rejects exactly when the proposal deletes or loosens the event in force |
| IntegrityGate.SchedUpsert | src/integrity/integrity.c:192-206 | In-place upsert: replace, append, or refuse at 64 |
| IntegrityGate.SchedDelete | src/integrity/integrity.c:208-219 | In-place deletion by shifting |
| IntegrityGate.PastHorizon | src/integrity/integrity.c:244-256 | Horizon rule: not the active event, and next start over 24 h off |
| IntegrityGate.IntegrityState.FreeEdit | src/integrity/integrity.c:226-240 | Free-edit rule: no record, no baseline, or still at least as binding as the baseline |
| IntegrityGate.IntegrityState.FindSettle | src/integrity/integrity.c:57-78 | Finds the record of an id, else the first free one |
| IntegrityGate.IntegrityState.NoteEdited | src/integrity/integrity.c:146-158 | Reopens the record of an edited id, creating it if there is room |
| IntegrityGate.IntegrityState.Tick | src/integrity/integrity.c:86-109 | Settles exactly the records whose window has passed without an edit and whose event is stored |
| IntegrityGate.IntegrityState.SealUnknown | src/integrity/integrity.c:125-144 | Seals the events without a record, in schedule order, while records are free |
| IntegrityGate.IntegrityState.CancelPending | src/integrity/integrity.c:162-175 | Frees exactly the queue slots of one target |
| IntegrityGate.IntegrityState.QueuePush | src/integrity/integrity.c:177-190 | Takes the first free slot, or reports a full queue and changes nothing |
| Watch.NoEarlyPromotion | src/main.c:1201-1278 | Main result. In every life of a watch from the factory on (pushes, passes, settings writes, clock saves, reboots into older saved clocks): if a boot changes a stored event, it promoted a due entry for that event, what is stored afterwards is what that entry says, and every push that put that very entry in the queue (there is one) did so at least 24 h of powered-on time before, less at most 999 ms |
| Watch.DueEntryHasWaited | src/main.c:1201-1278 | The same for each entry a boot would promote, whatever its effect: that very entry was queued by a push of the life, and every push that queued it did so a powered-on day before |
| Watch.HappeningKeepsInvariant | src/main.c:1201-1278 | The invariant behind it: shape of live and saved tables, every queued entry known, elapsed time since any stamp never ahead of powered-on time by more than a truncated second |
| Watch.EveryLifeKeepsShape | src/main.c:1201-1278 | Distinct ids within capacity, and an allowance of at most 2, in every life |
| Watch.PromoteFromFinds | src/integrity/integrity.c:407-461 | A boot changes a stored event only through a due entry that targets it, and to exactly what that entry says: gone, or the proposed event |
| Watch.OthersLeaveAlone | src/integrity/integrity.c:407-461 | Entries for other events leave an event as it is stored |
| Watch.QueuingsAreHistory | src/integrity/integrity.c:162-190 | Every recorded queuing is the work of a push of that life, at its powered-on time |
| Watch.NoLifeExceedsTheAllowance | src/main.c:757-792 | At every successful spend of every life, the spends of the last seven powered-on days (less 999 ms), this one included, number at most the allowance in force, across reboots |
| Watch.SpendsAreHistory | src/main.c:757-772 | Every recorded spend is a successful attempt of that life |
| Watch.WindowStaysInBounds | src/main.c:700-735 | In every life the settle window, live or saved, is between 30 and 120 minutes |
| Watch.HappeningMovesWindow | src/main.c:700-735 | Only a settings write or a boot moves it; a write sets it to what was asked, clamped below at 30 minutes, and never raises it |
| PassLedger.NeverOverAllowance | src/integrity/integrity.c:463-539 | On one elapsed clock: at every successful spend of every run of attempts and allowance changes, the spends of the preceding seven days, this one included, number at most the allowance |
| PassGrants.PassIsGrantedIff | src/integrity/integrity.c:463-539 | Main result. In every run of attempts and allowance writes on one elapsed clock, from an empty ledger: an attempt succeeds if and only if the event is stored and the seven days up to it hold fewer successful spends than the least allowance so far; remaining is that allowance less the spends then in those seven days |
| PassGrants.AgeingKeepsTheWeek | src/integrity/integrity.c:473-483 | Ageing leaves the spends of the last seven days in the ledger and no other |
| PassGrants.RunKeepsExact | src/integrity/integrity.c:463-539 | After every such run the ledger is exactly the spends of the seven days up to the last attempt |
| PassGrants.AttemptStores | src/integrity/integrity.c:494-525 | A success replaces the stored event by its one-day cancellation and no other event; a refusal changes none |
| PassGrants.AllowanceIsLeast | src/main.c:782-792 | The allowance in force is the least of the first one and all those written |
| PassLedger.AgedStillMatches | src/integrity/integrity.c:473-483 | The compaction never drops an unexpired spend: the ledger is the true history less spends that have aged out |
| PassLedger.SpendKeepsLedger | src/integrity/integrity.c:463-539 | One attempt keeps ledger and history matched; a success stays within the allowance |
| PassLedger.LedgerStepIsSound | src/main.c:782-792 | The allowance never rises, and the ledger stays sound |
| PassDay.PassIsOneDayIff | src/integrity/integrity.c:492-523 | The pass is the one-day cancellation its comment describes exactly when the event was in force on no other date; on a daily, weekly or monthly event it cancels every date |
| PassDay.PassCancelsEveryDay | src/integrity/integrity.c:504-523 | After a successful spend the event is in force on no date at all; every other event is as it was |
| PassDay.PassLandsOnItsDateIff | src/integrity/integrity.c:511-521 | The stored noon falls on the chosen local date exactly for offsets from -12:00 up to, but not including, +12:00 |
| PassDay.PassCanMissItsDate | src/integrity/integrity.c:511-521 | At UTC+13 a pass for 17 September 2026 carries the local date 18 September |
| Classify.InstantBindsAtLeast | src/integrity/classify.c:237-310 | Main result. If a modification is instant then every date and minute the old event enforces is enforced by the new one, under the same criterion and target, with profile no weaker, grace no longer, anchors and anchor profile no lighter |
| Classify.InstantIffBindsAtLeast | src/integrity/classify.c:237-310 | For a valid repeating event the classifier is exact: instant if and only if it binds at least as hard |
| Classify.InstantIsTransitive | src/integrity/classify.c:237-310 | Instant edits compose, value equality with unequal unused bytes included |
| Classify.NoChainLoosens | src/integrity/classify.c:237-310 | No chain of instant edits ends looser than it began |
| Classify.OnceIsInstantIff | src/integrity/classify.c:101-155 | For a one-time event: instant if and only if it binds at least as hard and is still a one-time or becomes a daily rule |
| Classify.EqualValuesClassifyAlike | src/integrity/classify.c:237-310 | Events equal in value are interchangeable on either side of the classifier |
| Classify.OnlyDailyCovers | src/integrity/classify.c:101-155 | A repeating rule is covered by another only if the recurrence relation says so |
| Classify.ProfileOrder | src/integrity/classify.c:32-69 | The profile relation is exactly "no weaker" in strictness and output, with "both" above "silent" and "buzz" |
| Classify.ClassifyModifiedLoop | src/integrity/classify.c:237-310 | The flag-accumulating comparison computes: no change, loosen if anything is not covered, tighten if something is strictly tighter |
| Classify.RelBeepAnchorsLoop | src/integrity/classify.c:168-197 | The two scans compute the inclusion order of the beep sets |
| Classify.BeepContains | src/integrity/classify.c:157-166 | Membership in the used part of the beep table |
| CivilDate.CivilOfDays | src/schedule/schedule.c:12-44 | Main result. For every valid proleptic Gregorian date with an int32 year: converting to a day number and back gives the date |
| CivilDate.DaysOfCivil | src/schedule/schedule.c:12-44 | For every day number: the date read from it has that number if and only if its calendar year fits int32, and is then a valid date |
| CivilDate.DayFitsIff | src/schedule/schedule.c:27-44 | Day numbers -784353015833 to 784351576776 are exactly those whose calendar year fits int32 |
| CivilDate.FarYearWraps | src/schedule/schedule.c:27-44 | A day number within a 64-bit reference date that reads as 1 January 2026 |
| CivilDate.NextDateNumber | src/schedule/schedule.c:12-25 | The calendar successor of a date has the next day number, month lengths and leap rule included |
| CivilDate.ConsecutiveDates | src/schedule/schedule.c:27-44 | Consecutive day numbers read back as consecutive calendar dates, wherever both years fit int32 |
| CivilDate.WeekdayOfNumber | src/schedule/schedule.c:46-57 | The weekday is day number plus three modulo seven, negative numbers included, wherever the year fits int32 |
| CivilDate.WeekdaysCycle | src/schedule/schedule.c:46-57 | Weekdays cycle 1..7 from day to day wherever both years fit int32, and day 0 is a Thursday |
| CivilDate.LocalDayIsFloor | src/schedule/schedule.c:59-77 | The truncating division with its correction is floor division at every offset |
| CivilDate.LocalTimeRoundTrip | src/schedule/schedule.c:59-86 | Local midnight plus minute of day recovers the UTC minute, for every instant and offset, if and only if the local year fits int32 |
| CivilDate.LocalTimeReadsBack | src/schedule/schedule.c:59-86 | An instant built from a date with an int32 year and a minute reads back as that date and minute |
| NextStart.NextStartIsLeast | src/schedule/schedule.c:221-261 | Main result. While the years of the 400 days searched fit int32, the search returns the distance to the least occurrence start strictly after now, always positive, and INT64_MAX exactly when none starts before the horizon ends |
| NextStart.DailyIsExactIff | src/schedule/schedule.c:221-261 | At any clock whatever: a daily event is given a next start within 24 h if and only if the year of the day it starts on fits int32 |
| NextStart.RepeatingNeverMisses | src/schedule/schedule.c:221-261 | On the same days, a valid daily, weekly or monthly event always has a next start (day 31 and 29 February included); a daily one within 24 h, so it never passes the over-24 h horizon test; a weekly one within 7 days |
| NextStart.DayOfMonthComesAround | src/schedule/schedule.c:88-115 | Every day of the month 1..31 comes around within 92 days of any date |
| NextStart.WeekdayComesAround | src/schedule/schedule.c:88-115 | Every weekday comes around within 7 days, wherever the years fit int32 |
| NextStart.SecondsUntilNextStartLoop | src/schedule/schedule.c:221-261 | The search loop computes the recursive search |
| DayPlan.PlanIsTheSurvivors | src/schedule/schedule.c:117-200 | Main result. The plan holds exactly the surviving winners: per id the last occurring one-time event, else the first occurring recurring one, and not negated; ids distinct; sorted by start and, among equal starts, in order of first appearance |
| DayPlan.ActiveIsEarliest | src/schedule/schedule.c:202-219 | The lookup finds an event if and only if some surviving window contains the minute, and then the earliest one |
| DayPlan.CapNeverBites | src/schedule/schedule.c:159-170 | The whole schedule is scanned if and only if at most 32 distinct ids occur that day |
| DayPlan.CapBites | src/schedule/schedule.c:163-170 | Otherwise some occurring event is new to a full plan and stops the scan |
| DayPlan.PastTheCapIsLost | src/schedule/schedule.c:163-170 | Nothing at or after that event is planned |
| DayPlan.CapLosesAnOverride | src/schedule/schedule.c:145-170 | A schedule of 34 events in which a later one-time event, the winner for an id already in the full plan and no cancellation, is not planned |
| DayPlan.MergeFindsWinners | src/schedule/schedule.c:138-173 | The override pass keeps exactly the winners, in order of first appearance |
| DayPlan.DistinctSurvivors | src/schedule/schedule.c:117-200 | With distinct ids and room, every occurring event that is no cancellation survives |
| DayPlan.Plan.Recalculate | src/schedule/schedule.c:117-200 | The in-place merge, compaction and sort produce the plan of the specification |
| DayPlan.Plan.Scan | src/schedule/schedule.c:138-173 | The in-place merge with its early stop at the cap |
| DayPlan.Plan.Compact | src/schedule/schedule.c:178-185 | The in-place compaction drops exactly the negated entries and keeps the order |
| DayPlan.Plan.Active | src/schedule/schedule.c:202-219 | The lookup loop returns the first planned event whose half-open window holds the minute |
| InsertionSort.SortInPlace | src/schedule/schedule.c:190-199 | The in-place insertion sort equals the functional sort on the used prefix and leaves the rest alone |
| InsertionSort.SortSorts | src/schedule/schedule.c:189-199 | The result is ordered and a permutation |
| InsertionSort.SortIsStable | src/schedule/schedule.c:189-199 | Equal keys keep their order |
| InsertionSort.SortedIsUnique | src/proximity/cs_fuse.c:95-118 | Sorted arrangements of one multiset of keys have the same keys |
| ScheduleBlob.BlobRoundTrip | src/schedule/schedule_blob.c:126-296 | Main result. Parsing undoes serialising, up to event equality, for every schedule of at most 64 valid events, whatever bytes follow |
| ScheduleBlob.PrefixIsTruncated | src/schedule/schedule_blob.c:126-296 | Every strict prefix of a serialised schedule is rejected as truncated |
| ScheduleBlob.AcceptedBlobsAreValid | src/schedule/schedule_blob.c:86-212 | What a parse accepts is at most 64 valid events, and re-serialises to a blob that parses to equal events |
| BlobMeaning.BlobIsAcceptedIff | src/schedule/schedule_blob.c:86-212 | A serialised schedule is accepted if and only if it has at most 64 events, all valid; otherwise the error says too many or bad field |
| BlobMeaning.ValidMeansItCanBind | src/schedule/schedule_blob.c:86-124 | An event is valid if and only if its kinds are known, its donning grace is at most half an hour, its window is not empty and ends before midnight, and its rule falls on some day |
| BlobMeaning.SameBytesIff | src/schedule/event.c:6-49 | Two events have the same bytes if and only if they are equal and carry the same anchor id |
| ScheduleBlob.I64RoundTrip | src/schedule/schedule_blob.c:48-58 | Eight little-endian bytes read back as the same signed 64-bit value |
| ScheduleBlob.Parse | src/schedule/schedule_blob.c:126-212 | The cursor-driven parser returns, for every byte string, exactly the error or the events of the layout, and the checksum; no read leaves the buffer |
| ScheduleBlob.TakeEvent | src/schedule/schedule_blob.c:150-203 | One iteration reads exactly one event or reports the first error in field order |
| ScheduleBlob.Cursor.Take | src/schedule/schedule_blob.c:19-30 | A read past the end sets the sticky flag and moves nothing; otherwise it yields exactly the next bytes |
| ScheduleBlob.Cursor.TakeU16 | src/schedule/schedule_blob.c:40-46 | Two bytes, little-endian |
| ScheduleBlob.Cursor.TakeI64 | src/schedule/schedule_blob.c:48-58 | Eight bytes, little-endian, reinterpreted as signed |
| ScheduleBlob.Serialize | src/schedule/schedule_blob.c:256-296 | Returns 0 if and only if the encoding exceeds the capacity; otherwise the buffer starts with the encoding |
| ScheduleBlob.Writer.Bytes | src/schedule/schedule_blob.c:223-231 | A write that does not fit stops all further writing |
| ScheduleBlob.LeBytesLoop | src/schedule/schedule_blob.c:245-254 | Little-endian bytes of a value, lowest first |
| Crc32.BurstsAreDetected | src/schedule/schedule_blob.c:64-77 | Main result. Two byte strings of equal length that differ only within four consecutive bytes have equal CRCs if and only if they are equal |
| Crc32.StepIsInjective | src/schedule/schedule_blob.c:70-73 | A bit step never merges two registers |
| Crc32.StepIsSurjective | src/schedule/schedule_blob.c:70-73 | Every register is one bit step from some register |
| Crc32.WindowIsOneWord | src/schedule/schedule_blob.c:67-75 | Registers agree after windows of up to four bytes if and only if they agreed before, with each window XORed in as one word |
| Crc32.RegisterIsInjective | src/schedule/schedule_blob.c:67-75 | Common bytes after a difference cannot hide it |
| Crc32.Crc32Loop | src/schedule/schedule_blob.c:64-77 | The branch-free masked loop computes the bitwise CRC |
| Crc32.ResidueIffOwnCrc | src/schedule/schedule_blob.c:64-77 | Any data followed by four bytes has CRC 0x2144DF1C if and only if the four are its own CRC, lowest byte first |
| Crc32.CheckValue | src/schedule/schedule_blob.c:64-77 | The check string 123456789 has CRC 0xCBF43926, and no bytes have 0 |
| Profiles.TickAccounts | src/enforcement/profiles.c:147-199 | A tick loses no time: completed steps plus the remainder are what was fed in, with no 32-bit overflow in windows under 24 h |
| Profiles.TimelineIsUnique | src/enforcement/profiles.c:90-122 | The time fed in determines step, cycle, remainder and outputs |
| Profiles.TicksAdd | src/enforcement/profiles.c:147-199 | Ticking a then b equals ticking a + b, for every run of any age, whenever the sum fits the 32-bit step counter |
| Profiles.SpacingDoesNotMatter | src/enforcement/profiles.c:147-199 | Any two ways of cutting the same total time into passes end in the same state, however long the total, for passes of up to 49 days each |
| Profiles.SpacingFromTheStart | src/enforcement/profiles.c:124-199 | The same from the start of any profile, known or not |
| Profiles.TimelineFromTheStart | src/enforcement/profiles.c:124-199 | For the first 24 h a started run stands, after passes of any lengths, exactly at their total on the timeline of the profile |
| Profiles.DurationInADay | src/enforcement/profiles.c:90-122 | The k-th wait is max(floor, 30000 - 2000 k) with no multiplication overflow for any window under 24 h |
| Profiles.TickStaysAlive | src/enforcement/profiles.c:147-199 | Ticking alone never ends a punishment, however long it runs and whatever wraps |
| Profiles.NoWeakerNagsMore | src/enforcement/profiles.c:13-78 | The order the classifier puts on profiles is an order on behaviour: no weaker means every output of the other, and each burst no later |
| Profiles.ProfileRun.Start | src/enforcement/profiles.c:124-138 | Starts at the first step of the profile; an unknown profile is finished at once |
| Profiles.ProfileRun.Stop | src/enforcement/profiles.c:140-145 | Both outputs off, and finished |
| Profiles.ProfileRun.Tick | src/enforcement/profiles.c:147-199 | The in-place tick, and when it reports a change |
| Profiles.ProfileRun.UseUp | src/enforcement/profiles.c:172-196 | The inner loop terminates and uses up whole steps while enough time has gathered |
| Proximity.VerdictIsEarned | src/proximity/proximity.c:40-96 | Main result. For every measurement sequence: the verdict is the one earned by its readings alone, and the abstention count is min(255, trailing abstentions) |
| Proximity.AbstentionsAreErased | src/proximity/proximity.c:40-60 | Verdict, dwell and thresholds equal those of the sequence with all abstentions deleted |
| Proximity.AbstainRunCounts | src/proximity/proximity.c:46-60 | The abstention run is min(255, trailing abstentions) |
| Proximity.ReadingsEarnTheVerdict | src/proximity/proximity.c:60-95 | Runs saturate at 255 and the verdict is that of the last long enough run |
| Proximity.EarnedHasEvidence | src/proximity/proximity.c:62-89 | A measured NEAR has 2 and an AWAY has 4 consecutive readings beyond its threshold behind it, with no later opposite run |
| Proximity.SustainedSilenceIsTheFailsafe | src/proximity/proximity.c:98-153 | More than five abstentions in a row fail stayNear and satisfy getAway, whatever was measured before |
| Proximity.BandIsOpenIff | src/proximity/proximity.c:16-31 | The hysteresis band is open if and only if the near override is at most 65485 cm (16-bit store) |
| Proximity.BandCanInvert | src/proximity/proximity.c:27-31 | A near override of 65500 cm inverts the band |
| Proximity.CriteriaAreEarned | src/proximity/proximity.c:98-153 | For every measurement sequence: getAway is met if and only if the readings earned AWAY or there is nothing to go by (no verdict, or more than five trailing failures), stayNear if and only if they earned NEAR and there is |
| Proximity.DefaultBand | src/proximity/proximity.c:6-38 | Without overrides a reading below 200 cm is near, one above 350 cm is away, and nothing is known at first |
| Proximity.ProxState.Init | src/proximity/proximity.c:6-38 | Defaults, clamps and the starting verdict |
| Proximity.ProxState.Ingest | src/proximity/proximity.c:40-96 | One measurement |
| Proximity.ProxState.ForceAway | src/proximity/proximity.c:155-167 | Installs AWAY and clears every run |
| CsFuse.BurstYieldsADistanceIff | src/proximity/cs_fuse.c:120-171 | Main result. A burst yields a distance if and only if at least ten samples were stored and they outnumber the suspected relays; it is then the calibrated median, at most 2951 cm, and lies with any range that holds most stored samples |
| CsFuse.BurstMeasuresTheDistance | src/proximity/cs_fuse.c:120-171 | If more than half of the stored samples are what the estimator says between two true distances, the reported distance lies between those two, to within 2 cm |
| CsFuse.CalibrationInverts | src/proximity/cs_fuse.c:155-168 | Calibration inverts the estimator to within 2 cm over the whole range |
| CsFuse.OffsetIsZero | src/proximity/cs_fuse.c:155-168 | At or below the estimator offset the distance is 0 |
| CsFuse.BurstFailsAs | src/proximity/cs_fuse.c:129-150 | Which failure is reported: relays no fewer than the stored samples, else more rejected for quality than stored, else a failed procedure; a good burst reports its sample count |
| CsFuse.FatesAre | src/proximity/cs_fuse.c:22-93 | Which procedures each gate rejects, in unbounded arithmetic, in both directions |
| CsFuse.OrderOfArrivalDoesNotMatter | src/proximity/cs_fuse.c:22-171 | Any rearrangement of the procedures of a burst with at most 24 accepted ones gives the same measurement |
| CsFuse.OrderFreeIff | src/proximity/cs_fuse.c:22-171 | The measurement of n accepted procedures is independent of their order if and only if n is at most 24 |
| CsFuse.BagIgnoresOrder | src/proximity/cs_fuse.c:22-93 | Rearranged procedures have the same accepted estimates and the same tallies |
| CsFuse.MedianIgnoresOrder | src/proximity/cs_fuse.c:95-118 | The median depends on the multiset of samples only |
| CsFuse.MedianFollowsTheMajority | src/proximity/cs_fuse.c:95-118 | If more than half of the stored samples lie in [lo, hi], so does the median, whatever the others are |
| CsFuse.CalibrationIsMonotone | src/proximity/cs_fuse.c:155-168 | Calibration is monotone, never underflows, and tops out at 2951 cm; CsFuse.CalibrationInverts fixes its values |
| CsFuse.NoWrapInRange | src/proximity/cs_fuse.c:11-20 | On the numbers that can occur, the 32-bit intermediate results are the true ones |
| CsFuse.Burst.Add | src/proximity/cs_fuse.c:22-93 | Every procedure gets its one fate; samples and saturating tallies are those of all procedures added |
| CsFuse.Burst.SortedCopy | src/proximity/cs_fuse.c:95-112 | Sorts a copy; the burst is left alone |
| CsFuse.Burst.MedianOf | src/proximity/cs_fuse.c:95-118 | The median of the stored samples |
| CsFuse.Burst.Finish | src/proximity/cs_fuse.c:120-171 | The measurement of the whole burst |
| EnforcementSafety.PinsFollowThePunishment | src/enforcement/enforcement.c:20-420 | Main result. After any interleaving of the entry points since init: the pins show exactly the current step of the active event's own, unfinished profile while enforcing, unmet and not silenced; both are off otherwise, and for a profile the table does not know |
| EnforcementSafety.StepIsSafe | src/enforcement/enforcement.c:20-420 | The invariant kept by every entry point: met or not enforcing means both outputs off; unmet means the active event's own profile is running and unfinished; grace only if worn; a lost-link grace only in getAway and ten seconds long |
| EnforcementSafety.LinkUpdateIsSafe | src/enforcement/enforcement.c:282-363 | The lost-link rule keeps the invariant, its two restarts and conclusions included |
| EnforcementSafety.UnwornHasNoGrace | src/enforcement/enforcement.c:50-108 | In every reachable state an unworn watch is judged by the criterion alone |
| MainLoop.PinsAreAlwaysRight | src/main.c:1396-1594 | After any run of main-loop passes since boot, whatever the clocks, radio, day plan and worn sensor say, the pins written are right |
| MainLoop.LoopsAreCalls | src/main.c:1396-1594 | A run of the loop is one of the interleavings, so every result about interleavings holds of the loop |
| LoopActs.PollsAreOnTime | src/main.c:1406-1413 | Past its poll, an enforcing pass owes none and has polled less than one interval ago; a poll is taken only where forced or due |
| LoopActs.PollJudges | src/main.c:1406-1470 | A poll ends in a check: outside the donning grace the commitment is met afterwards exactly if its criterion holds of what was measured |
| LoopActs.NewWindowIsPolled | src/main.c:1396-1413 | A window is polled in the pass it begins in |
| LoopActs.WearingForcesAPoll | src/main.c:1396-1413 | The worn edge forces a poll on the next pass |
| LoopActs.PassTicksOnce | src/main.c:1396-1594 | A pass that enforces ticks the profile exactly once, by its own time, and any other pass not at all |
| MainLoop.Firmware.RunPass | src/main.c:1396-1680 | One pass: refresh, poll, bursts, lost link, tick, pins, worn edge, in that order |
| MainLoop.Firmware.Refresh | src/main.c:362-397 | Enter, exit or keep the window; leaving it clears the pins |
| MainLoop.Firmware.Poll | src/main.c:1406-1454 | The poll is due when forced or when its interval has passed; it feeds one abstention or measurement and checks |
| MainLoop.Firmware.Drive | src/main.c:1519-1593 | Output calls while enforcing, and the pins every pass |
| LostLink.SilenceIsShort | src/enforcement/enforcement.c:282-363 | After every link update a live grace implies getAway, unmet, and less than 10 s since the activity that preceded the loss |
| LostLink.SilencesAreFarApart | src/enforcement/enforcement.c:311-328 | In one window two silences start at least 120 s apart, whatever else is called in between |
| LostLink.SilenceHasACause | src/enforcement/enforcement.c:311-328 | A live grace was opened by a link update of its window, and counts from the activity that update saw |
| LostLink.EveryLongLossIsConcluded | src/enforcement/enforcement.c:311-336 | In one window, a link seen in it and found silent for 10 s has had AWAY concluded for that very loss, by that update or an earlier one |
| LostLink.NoLossIsConcludedTwice | src/enforcement/enforcement.c:282-363 | ... and never twice, whatever the telemetry and the clock: two conclusions that count from the same activity have between them, the first included, an update that reported no loss or another activity |
| LostLink.EachLossIsConcludedOnce | src/enforcement/enforcement.c:282-363 | Under telemetry and an uptime that never step back, successive conclusions count from strictly later activity |
| LostLink.ConclusionIsDone | src/enforcement/enforcement.c:330-362 | Every conclusion comes at least 10 s after the activity it counts from |
| LostLink.LongLossIsConcluded | src/enforcement/enforcement.c:311-336 | One update: a seen link silent for 10 s is marked as lost since that activity and concluded |
| LostLink.ConclusionSettles | src/enforcement/enforcement.c:271-280 | A conclusion settles the criterion on the same pass: met for all but stayNear, with output off |
| LostLink.UnseenLinkIsOnlyMeasured | src/enforcement/enforcement.c:297-303 | A link never seen in a window yields no forced AWAY: the verdict is at every moment the one its own measurements earn |
| LostLink.JammedRadioFailsClosed | src/enforcement/enforcement.c:409-420 | In such a window, after more than five abstentions in a row the next check fails stayNear and satisfies the other two |
| LostLink.BurstsCountOnce | src/enforcement/enforcement.c:371-407 | In one window no burst is counted twice |
| EnforcementActs.WindowIsJudged | src/enforcement/enforcement.c:149-221 | Main result. In a getAway or stayNear window whose link was never seen, outside the donning grace: a check is met if and only if the measurements of the window say so, and unmet means the watch may punish |
| EnforcementActs.AlarmStarts | src/enforcement/enforcement.c:131-147 | The call that finds the commitment broken starts its own profile, and the pins show the outputs of that profile |
| EnforcementActs.AlarmPlaysTheProfile | src/enforcement/enforcement.c:131-230 | While the commitment stays unmet the run is the profile started afresh and fed every tick since, and nothing else |
| EnforcementActs.AlarmIsOnTime | src/enforcement/enforcement.c:223-230 | For the first day it stands on the timeline of the profile exactly at the sum of those ticks |
| EnforcementActs.DonningGraceIsGranted | src/enforcement/enforcement.c:88-108 | From the moment a window opens on a worn watch, or the watch is put on in it, while it stays on: every check within the grace of the event is met, and from its end on the criterion decides |
| EnforcementActs.GraceIsSilent | src/enforcement/enforcement.c:149-167 | No call within the grace leaves the commitment unmet or a pin on |
| EnforcementActs.FirstLossSilences | src/enforcement/enforcement.c:297-362 | The first loss of a sounding getAway window silences it if and only if no later burst contradicts the loss, when found before ten seconds; found at ten seconds, AWAY is concluded |
| EnforcementActs.DisproofResumes | src/enforcement/enforcement.c:345-356 | A burst that contradicts the loss ends the silence and starts the profile over |
| EnforcementActs.SilentRadioIsNoticed | src/enforcement/enforcement.c:232-261 | After NEAR, the sixth poll in a row without a burst turns the answer: 110 s after the last good poll for getAway, 18 minutes for stayNear |
| EnforcementActs.LooksAreMeasured | src/enforcement/enforcement.c:185-199 | In a docked phoneAway window of an unseen link, a look sees the phone near if and only if the measurements earned NEAR |
| EnforcementActs.PhoneAlarmIsRaisedIff | src/enforcement/enforcement.c:178-211 | With every look since the first near: the alarm condition is unmet after a look if and only if 60 s have passed since the first |
| EnforcementActs.FreshBurstIsFolded | src/enforcement/enforcement.c:371-407 | A burst of this window later than all folded before is folded into the verdict |
| EnforcementActs.NetworkCriteria | src/enforcement/enforcement.c:110-116 | The two network criteria: met exactly on, and exactly off, a network of the name the event carries |
| Enforcement.Context.EnterWindow | src/enforcement/enforcement.c:28-77 | Fresh per-window state; donning grace only if worn at the start |
| Enforcement.Context.ExitWindow | src/enforcement/enforcement.c:79-86 | Dormant, met, timers reset, output off |
| Enforcement.Context.Wear | src/enforcement/enforcement.c:88-108 | Donning opens a fresh grace, taking off cancels it |
| Enforcement.Context.SettleTo | src/enforcement/enforcement.c:131-147 | Output stops on becoming met and restarts on becoming unmet |
| Enforcement.Context.CheckCondition | src/enforcement/enforcement.c:149-221 | The check: no event or grace short-circuits to met, otherwise the criterion decides |
| Enforcement.Context.CheckPhone | src/enforcement/enforcement.c:178-211 | The phone criterion: fails open without a verdict, and tolerates 60 continuous seconds |
| Enforcement.Context.Tick | src/enforcement/enforcement.c:223-230 | The profile advances only while enforcing and unmet |
| Enforcement.Context.ConcludeAway | src/enforcement/enforcement.c:271-280 | Ends the grace, forces AWAY, and settles |
| Enforcement.Context.LinkUpdate | src/enforcement/enforcement.c:282-363 | The lost-link rule in place |
| Enforcement.Context.BurstUpdate | src/enforcement/enforcement.c:371-407 | Folds a new burst of this window in, and settles |
| Enforcement.Context.PollAbstainIfIdle | src/enforcement/enforcement.c:409-420 | An interval without a burst is one abstention |
| Enforcement.LinkTimers.Note | src/enforcement/enforcement.c:297-339 | Records a new loss, opens a grace when allowed, forgets a loss that ended |
| Enforcement.LinkTimers.Arm | src/enforcement/enforcement.c:263-269 | The first update of a window fixes its start |
| PhoneAway.AlarmIsEarned | src/enforcement/enforcement.c:178-211 | In one phone-away window an unmet criterion means: some look saw the phone near, a look at least 60 s later did too, and so did every look from the first on, each with a verdict and outside the fail-safe; so the alarm never sounds on an uncertain link |
| PhoneAway.StepFollowsLook | src/enforcement/enforcement.c:149-221 | The tolerance and the verdict move only by looks at the phone; every other call leaves them, or makes the criterion met |
| Events.Schedule.FindIndex | src/integrity/integrity.c:46-55 | Finds the first event with an id |

## Left out

- PushEffects.PushUncoversNothing: assumes at most 32 distinct ids occur on the date, before and after, because past that the day plan stops scanning (DayPlan.CapNeverBites), and one timezone throughout.
- PushEffects.ReportAccounts: assumes distinct proposed ids; the parser accepts a blob that repeats an id, and then later copies are compared with earlier ones.
- PushEffects.AcceptedMeansAgreement: assumes distinct proposed ids, for the same reason.
- Commitment.SettledEventsAreKept: covers runs without a pass, which overwrites the stored event and leaves its baseline behind; Guarantee.SettledEventsSurviveLives adds reboots, which may restore a record from before the event settled; the guarantee then starts when it settles again.
- PushActs.NewEventIsStored: takes room in the table as given; PushActs.AllFit and PushCounts.DeletionsMakeRoom say when there is room.
- PushActs.TighteningIsStored: for a stored event that is in force at some time, and not for a weekly or monthly rule replacing a one-time event, which the classifier never takes as covering it; the same goes for PushActs.BindingReplacementIsStoredIff and PushActs.EquallyBindingIsLeft.
- PushActs.LooseningIsHeld: takes distinct proposed ids, a start minute within a day and a clock whose next 400 days have int32 years; so do the other results about starts.
- PromotionActs.DueEntryTakesEffect: what one call does; a one-time replacement counts as lapsed when no start is left within the 400 days the search looks ahead.
- EnforcementActs.WindowIsJudged: for windows whose link was never seen; a link that was lost may add concluded AWAYs, which LostLink describes.
- EnforcementActs.DonningGraceIsGranted: not for a grace that ends at UTC second 0, the mark the code uses for none.
- EnforcementActs.FirstLossSilences: not for activity at uptime 0, for the same reason.
- EnforcementActs.PhoneAlarmIsRaisedIff: not for a first look at UTC second 0, for the same reason.
- NextStart.NextStartIsLeast: for clocks whose next 400 days have int32 years; outside them NextStart.DailyIsExactIff says for daily events exactly what is right.
- NextStart.RepeatingNeverMisses: for the same clocks.
- Classify.InstantIffBindsAtLeast: for repeating events; Classify.OnceIsInstantIff is the exact condition for one-time ones.
- Watch.NoEarlyPromotion: 24 hours less 999 ms, because the elapsed clock is stored in whole seconds; a boot is one atomic step.
- Watch.NoLifeExceedsTheAllowance: seven days less 999 ms, for the same reason.
- CsFuse.OrderOfArrivalDoesNotMatter: for at most 24 accepted procedures, the most a burst stores; past that CsFuse.OrderFreeIff shows it fails.
- ScheduleBlob.Parse: does not state what is left in the output table after a failed parse; the caller discards it.
- LostLink.EachLossIsConcludedOnce: assumes telemetry whose activity time does not go back, and an uptime that does not either; LostLink.NoLossIsConcludedTwice assumes neither.
- PhoneAway.AlarmIsEarned: speaks of looks; during a donning grace the check takes none, and the tolerance neither restarts nor is confirmed.
- LostLink.EveryLongLossIsConcluded: for activity stamps other than 0, the code's mark for "no loss".
- IntegrityGate.IntegrityState: elapsed seconds are unbounded, not 64-bit; UTC seconds and uptime milliseconds in the clocks likewise.
- Watch: modelled on values, because it describes what flash holds against what RAM holds rather than code that runs; the boot sequence restores the saved values in one step.
- The `active` event is a snapshot; the firmware keeps its address in the schedule table, and a later push may rewrite that entry under it.
- Queued setting changes carry no payload here, because no code applies them.
- NULL arguments of the proximity functions, and the stub radio back end.
- impulse_integrity_time_change_allowed, battery, LED ring, buttons, worn hysteresis: single comparisons.
- Anchor role, BLE, WiFi, UDP escalation, storage formats, hardware drivers, and the floating-point estimators behind the raw distances.
