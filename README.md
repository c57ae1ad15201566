# Hospital dashboard: ER triage, beds, alarm and pharmacy core in Dafny

This project models the state logic of the hospital-operations dashboard's root component (`App.tsx`):

- **ER triage queue.** Items are kept in priority order CRITICAL, URGENT, NON_URGENT by a stable sort. Vitals are merged by id. Silencing restores the seeded baseline vitals. A random deterioration tick raises at most one new alarm.
- **Bed admission.** The first Available bed becomes Occupied by `ER-<id>`, and the item leaves the queue.
- **Spoken alarm.** The React effect and its cleanup act on `speechIntervalRef` and on the browser's repeat intervals. The model keeps the recorded interval id apart from the intervals that actually run.
- **Pharmacy.** Dispensing updates bought quantities, appends a billing line and lowers stock. Restocking raises stock again.
- **Medication-reminder tick.** A nested walk over patients and prescriptions, plus the rotating time of day.
- **Threshold predicate `areVitalsAbnormal`.**
- **Record lists.** Replace-by-id and prepend for the mortuary, complaint, ADR and lab lists.

The JavaScript behaviour the handlers rely on is written out:

- **Stable sort.** `Array.prototype.sort` is stable, so the sorted queue is fully determined. It is modelled as an insertion sort that is proved equal to the concatenation of the three priority groups.
- **Number to text.** `${n}` is modelled for integers: a minus sign, then the decimal digits without leading zeros. JavaScript numbers are doubles; the limits this leaves are listed under "Left out".
- **`parseInt`.** Leading white space, a sign, the `0x` prefix and a digit prefix are modelled. NaN is `None`.
- **Truthiness.** An empty email and a reading of `0` are false.

`Math.random()` draws, `Date.now()` and fresh notification ids are parameters.

Modules, one file each:

| file | module |
|---|---|
| `wrappers.dfy` | `Option` |
| `decimal.dfy` | `Decimal`: number printing and `parseInt` |
| `hospital_types.dfy` | `HospitalTypes`: the records of `types.ts` |
| `fixtures.dfy` | `Fixtures`: `MOCK_BEDS`, `MOCK_ER_QUEUE` |
| `triage_queue.dfy` | `TriageQueue` |
| `admission.dfy` | `Admission` |
| `alarm_notifier.dfy` | `AlarmNotifier` |
| `er_dashboard.dfy` | `ErDashboard`: a class holding queue, beds and siren state |
| `pharmacy.dfy` | `Pharmacy` |
| `medication_reminders.dfy` | `MedicationReminders`: loops and a class |
| `vitals_check.dfy` | `VitalsCheck` |
| `record_lists.dfy` | `RecordLists` |
| `scenarios.dfy` | `Scenarios`: concrete runs |

Where the design description of the system and the code differ, the model follows the code:

- Removal from the queue drops every item with the id, not exactly one.
- Admission occupies a bed even when the id is not queued.
- Bed allocation and binding happen in one step. No `release` operation exists in the code.
- The siren goes quiet after a queue change instead of moving on to the next alarm without a gap. `Dashboard.AlarmCleanup` models the cleanup as written; `Dashboard.AlarmCleanupCorrected` is the corrected one. See the finding below.

## Model

| member | source | states |
|---|---|---|
| TriageQueue.OfPriority | App.tsx:67-77 | the items of one priority, in queue order, never more than the queue holds |
| TriageQueue.Insert | App.tsx:352-365 | inserting an item adds exactly that item to the multiset of items |
| TriageQueue.SortIsPriorityBuckets | App.tsx:352-365 | the stable sort equals all CRITICAL items, then all URGENT, then all NON_URGENT, each group in original order |
| TriageQueue.PriorityBucketsSorted | App.tsx:67-77 | the grouped order is sorted by rank CRITICAL < URGENT < NON_URGENT |
| TriageQueue.SortByPriority | App.tsx:67-77 | the sorted queue holds exactly the items of the input, as a multiset |
| TriageQueue.AddToQueue | App.tsx:352-365 | the new queue holds the old items plus the arrival, as a multiset |
| TriageQueue.InitialQueue | App.tsx:67-77 | the initial queue holds exactly the seeded cases, as a multiset |
| TriageQueue.SortedSplitsLast | App.tsx:352-365 | dropping the last item of an ordered queue leaves it ordered, and that item ranks no higher than any before it |
| TriageQueue.SortSnoc | App.tsx:352-365 | sorting a queue with one more item at the end inserts that item into the sorted rest |
| TriageQueue.SortByPrioritySpec | App.tsx:67-77 | the sorted queue is a permutation, is ordered by rank, and keeps the relative order of equal-priority items |
| TriageQueue.AddToQueueSpec | App.tsx:352-365 | adding an item yields a rank-ordered permutation of the old queue plus the item, ties in insertion order |
| TriageQueue.SortedIsFixed | App.tsx:352-365 | re-sorting an already ordered queue changes nothing |
| TriageQueue.AddToSortedQueueIsInsert | App.tsx:352-365 | on an ordered queue, append-then-sort is insertion after every item of equal or higher priority |
| TriageQueue.InitialQueueInSeedOrder | App.tsx:67-77 | the seeded cases are already in priority order, so the initial queue is the seed list itself |
| TriageQueue.InsertAfterLowerOrEqual | App.tsx:352-365 | inserting after a prefix of no-higher rank leaves that prefix in front |
| TriageQueue.UniformOfPriority | App.tsx:67-77 | a queue whose items all share a priority is its own group of that priority |
| TriageQueue.OfPriorityAppend | App.tsx:67-77 | grouping by priority distributes over concatenation |
| TriageQueue.OfPriorityOfBuckets | App.tsx:67-77 | grouping the grouped order by a priority gives back that group |
| TriageQueue.OfPrioritySnoc | App.tsx:67-77 | appending an item extends only its own priority group |
| TriageQueue.InsertBetween | App.tsx:352-365 | an item lands between a lower-or-equal prefix and a strictly higher suffix |
| TriageQueue.KeysOfPriority | App.tsx:67-77 | every item in a priority group has that group's rank |
| TriageQueue.InsertIntoBuckets | App.tsx:352-365 | inserting into the grouped order appends the item to its own group |
| TriageQueue.InsertIntoThreeBuckets | App.tsx:352-365 | insertion into three rank-ordered groups extends the item's group |
| TriageQueue.InsertIntoFirstBucket | App.tsx:352-365 | a CRITICAL item goes at the end of the CRITICAL group |
| TriageQueue.InsertIntoMiddleBucket | App.tsx:352-365 | an URGENT item goes at the end of the URGENT group |
| TriageQueue.InsertIntoLastBucket | App.tsx:352-365 | a NON_URGENT item goes at the very end |
| TriageQueue.FirstAlarming | App.tsx:235 | the index of the first alarming item, or none exactly when no item alarms |
| TriageQueue.FindByBay | App.tsx:406-408 | the first seeded entry with the given bay, or none exactly when no entry has it |
| TriageQueue.UpdateQueueVitals | App.tsx:389-400 | only items with the id change; supplied vitals overwrite, omitted ones are kept; length, priority and alarm flags stay |
| TriageQueue.UpdateUnknownIdIsNoOp | App.tsx:389-400 | updating an id not in the queue returns the queue unchanged |
| TriageQueue.MergeVitalsCompose | App.tsx:396 | merging two patches in turn equals merging their merge |
| TriageQueue.UpdateQueueVitalsCompose | App.tsx:389-400 | two vitals updates of one id equal one update with the merged patch |
| TriageQueue.SilenceAlarm | App.tsx:402-417 | the silenced items stop alarming and take the first same-bay seeded vitals, or keep theirs when none exists; other items are untouched |
| TriageQueue.PickIndex | App.tsx:214 | `floor(roll * n)` is a valid index for a draw in [0, 1) |
| TriageQueue.CountAlarmingUpdate | App.tsx:226-231 | replacing one item changes the alarm count by that item's flags only |
| TriageQueue.MergeVitals | App.tsx:396 | each reading supplied by the patch replaces the current one; each omitted reading keeps its current value |
| TriageQueue.BaselineVitals | App.tsx:406-412 | the vitals of the first seeded entry in the same bay, or the item's own vitals when no seeded entry has that bay |
| TriageQueue.Deteriorate | App.tsx:221-229 | the picked item alarms, with SpO2 88 and heart rate 135; its other readings and every other field are kept |
| TriageQueue.DeteriorationTick | App.tsx:208-233 | the tick keeps the queue's length and every item's id, bay and triage result |
| TriageQueue.DeteriorationTickSpec | App.tsx:208-233 | no change on an empty queue, a skip draw or an already alarming pick; otherwise only the pick changes, to SpO2 88, heart rate 135, other readings kept, alarming; at most one new alarm |
| TriageQueue.InPlaceHandlersKeepPriorities | App.tsx:389-417 | vitals update, silencing and the tick keep every item's priority in place |
| TriageQueue.SamePrioritiesKeepOrder | App.tsx:389-417 | a queue with the same priorities position by position stays ordered |
| TriageQueue.RemoveFromQueue | App.tsx:385 | an item stays exactly when its id differs from the admitted id; a one-item queue is kept or emptied by that test |
| TriageQueue.RemoveFromQueueAppend | App.tsx:385 | removal distributes over concatenation, so the kept items stay in order with their copies |
| TriageQueue.RemoveFromQueueKeepsOrder | App.tsx:385 | removal keeps a priority-ordered queue ordered |
| TriageQueue.RemoveUnknownIdIsNoOp | App.tsx:385 | removing an absent id changes nothing |
| Admission.ErPatientId | App.tsx:379 | the occupant is `ER-` followed by the printed queue id |
| Admission.AdmitPatientFromQueue | App.tsx:367-387 | admission succeeds exactly when some bed is Available; failure changes nothing; success removes the id from the queue; bed count and bed ids are kept |
| Admission.FirstAvailable | App.tsx:368 | the index of the first Available bed, or none exactly when no bed is Available |
| Admission.OccupyBed | App.tsx:373-382 | beds with the chosen id become Occupied by the occupant; every other bed is unchanged |
| Admission.ErPatientIdInjective | App.tsx:379 | distinct queue ids give distinct `ER-<id>` occupants |
| Admission.AdmitSpec | App.tsx:367-387 | admission succeeds exactly when a bed is Available; failure changes nothing; success occupies only the first Available bed by `ER-<id>` and removes that id from the queue |
| Admission.AdmitUnknownIdStillOccupiesBed | App.tsx:367-387 | with an id not in the queue a bed is still consumed and the queue is unchanged |
| Admission.OccupyLowersAvailable | App.tsx:373-382 | occupying an Available bed lowers the Available count |
| Admission.OccupyNeverAddsAvailable | App.tsx:373-382 | occupying never raises the Available count |
| Admission.OccupyUniqueLowersByOne | App.tsx:373-382 | with unique bed ids, admission lowers the Available count by exactly one |
| Admission.NoAvailableMeansZero | App.tsx:368-371 | no Available bed found means an Available count of zero |
| Admission.AdmitKeepsBedsConsistent | App.tsx:367-387 | a bed holds a patient exactly when Occupied, before and after admission |
| Admission.AdmitKeepsQueueOrder | App.tsx:385 | admission keeps the queue in priority order |
| Admission.AdmitKeepsBedIdsUnique | App.tsx:373-382 | admission keeps bed ids unique |
| Admission.AdmitEach | App.tsx:367-387 | a run of admissions succeeds at most once per attempt and keeps bed count and bed ids |
| Admission.AdmitEachSucceedsPerAvailableBed | App.tsx:367-387 | a run of admissions succeeds exactly min(attempts, Available beds) times, so no bed is given twice |
| Admission.MockBedsConsistent | constants.ts:31-109 | in the seeded beds a patient is recorded exactly on the Occupied beds, and bed ids are unique |
| Fixtures.MockBeds | constants.ts:31-109 | twelve seeded beds with distinct ids, a patient recorded exactly on the Occupied ones |
| Fixtures.MockErQueue | constants.ts:536-586 | three seeded cases in bays 1 to 3, none alarming, with priorities CRITICAL, URGENT, NON_URGENT in that order |
| AlarmNotifier.RunEffect | App.tsx:235-257 | one effect run keeps the siren state valid, only appends speech and never reuses an interval id |
| AlarmNotifier.Cleanup | App.tsx:259-265 | the cleanup stops speech and every repeat but keeps the recorded ref and the id counter |
| AlarmNotifier.Silence | App.tsx:418-422 | silencing stops speech, forgets the recorded interval and stops every repeat |
| AlarmNotifier.Fire | App.tsx:244-252 | a firing interval speaks its bay only when it is still running; nothing else changes |
| AlarmNotifier.Rerender | App.tsx:235-265 | a queue change first stops speech, then runs the effect, keeping the state valid |
| AlarmNotifier.CleanupClearingRef | App.tsx:259-265 | the corrected cleanup stops speech and every repeat and forgets the recorded interval |
| AlarmNotifier.RunEffectSpec | App.tsx:235-257 | one run starts a repeat for the first alarming bay exactly when an item alarms and no interval is recorded; it stops the siren exactly when none alarms and one is recorded; otherwise it changes nothing; at most one repeat runs |
| AlarmNotifier.StepsKeepValid | App.tsx:235-265 | effect, cleanup, silencing and firing keep ids positive and any running repeat equal to the recorded one |
| AlarmNotifier.AtMostOneRepeat | App.tsx:252 | at most one repeat interval runs, and none while nothing is recorded |
| AlarmNotifier.SilenceStopsSiren | App.tsx:418-423 | silencing forgets the interval, stops every repeat and speech, and no later firing speaks |
| AlarmNotifier.CleanupKeepsRef | App.tsx:259-265 | the cleanup stops every repeat but leaves the ref holding the cleared id |
| AlarmNotifier.StaleRefMutesSiren | App.tsx:237-265 | after a queue change with an item still alarming, the ref is still set, no repeat runs, and no firing speaks |
| AlarmNotifier.SirenFollowsQueue | App.tsx:235-265 | with the cleanup also forgetting the interval, one repeat runs after every queue change exactly while an item alarms, announcing the first alarming bay |
| ErDashboard.Dashboard.constructor | App.tsx:64-91 | the state starts with the seeded queue in priority order, the seeded beds (unique ids, patient exactly on Occupied beds) and a silent siren |
| ErDashboard.Dashboard.AddToQueue | App.tsx:352-365 | the queue becomes append-then-sort and stays ordered; beds and siren unchanged |
| ErDashboard.Dashboard.AdmitPatientFromQueue | App.tsx:367-387 | returns and applies the admission outcome; on success exactly the first Available bed becomes Occupied by `ER-<id>`; queue order, bed consistency and unique bed ids are kept |
| ErDashboard.Dashboard.UpdateQueueVitals | App.tsx:389-400 | the queue becomes the vitals update and stays ordered |
| ErDashboard.Dashboard.SilenceAlarm | App.tsx:402-423 | the item is silenced and restored, the ref is cleared and no repeat runs |
| ErDashboard.Dashboard.SimulationTick | App.tsx:208-233 | the queue becomes the deterioration tick's result and stays ordered |
| ErDashboard.Dashboard.AlarmEffect | App.tsx:235-257 | the siren state becomes one effect run over the current queue |
| ErDashboard.Dashboard.AlarmCleanup | App.tsx:259-265 | the cleanup as written: no repeat runs afterwards, the ref keeps its value, speech is stopped |
| ErDashboard.Dashboard.AlarmCleanupCorrected | App.tsx:259-265 | the corrected cleanup: the ref is cleared and no repeat runs |
| ErDashboard.Dashboard.FireInterval | App.tsx:244-252 | only a running repeat speaks when its interval fires |
| Pharmacy.AddBought | App.tsx:308-315 | every prescription for the drug has `quantity` more bought; others unchanged |
| Pharmacy.DispenseToPatients | App.tsx:305-332 | only the patient with the id changes; others unchanged |
| Pharmacy.DispenseFromInventory | App.tsx:333-339 | every inventory line for the drug loses `quantity`; others unchanged |
| Pharmacy.RestockInventory | App.tsx:342-350 | the line with the id gains `quantity`; every other line is unchanged |
| Pharmacy.AddBoughtTotal | App.tsx:308-315 | units bought of the drug grow by `quantity` per prescription for it |
| Pharmacy.AddBoughtOtherDrug | App.tsx:308-315 | units bought of any other drug are unchanged |
| Pharmacy.DispenseBill | App.tsx:316-321 | a Pharmacy line costing `quantity * costPerUnit`, id `bill-<now>`, described by the drug name first |
| Pharmacy.DispenseToPatient | App.tsx:307-328 | only prescriptions and billing change; exactly that bill is appended; a present prescription list becomes `AddBought` of it, so each prescription for the drug gains `quantity` bought and nothing else changes |
| Pharmacy.DispenseToPatientSpec | App.tsx:305-332 | exactly one Pharmacy billing line costing `quantity * costPerUnit` is appended, so the bill grows by that; bought units move as above; the patient's identity is kept |
| Pharmacy.DispenseStockTotal | App.tsx:333-339 | stock of the drug falls by `quantity` per inventory line for it |
| Pharmacy.DispenseCanOverdraw | App.tsx:333-339 | with no lower-bound check, stock can go negative |
| Pharmacy.RestockUndoesDispense | App.tsx:333-350 | restocking the dispensed quantity restores the inventory when the id names exactly that drug's line |
| MedicationReminders.Keys | App.tsx:166-171 | one (patient, drug) key per reminder |
| MedicationReminders.KeysSnoc | App.tsx:166-171 | appending a reminder appends its key |
| MedicationReminders.KeyAt | App.tsx:166-171 | the k-th key is that of the k-th reminder |
| MedicationReminders.CollectReminders | App.tsx:151-176 | the loop over patients creates exactly the due reminders, in order, with the k-th fresh id and the current time of day |
| MedicationReminders.CollectForPatient | App.tsx:154-174 | the loop over one patient's prescriptions appends exactly that patient's due reminders |
| MedicationReminders.RemindOf | App.tsx:156-172 | one prescription adds a reminder exactly when it is unfilled at this time of day and not reminded of yet, numbered with the next fresh id |
| MedicationReminders.DueFor | App.tsx:155-174 | at most one reminder per prescription, each for this patient |
| MedicationReminders.DueReminders | App.tsx:153-177 | with no patient that has an email and prescriptions, nothing is due |
| MedicationReminders.DueForStep | App.tsx:155-173 | one more prescription extends the due reminders by at most its own |
| MedicationReminders.DueForSound | App.tsx:155-165 | a reminder is for an unfilled prescription taken at this time and not reminded of yet |
| MedicationReminders.DueRemindersSound | App.tsx:153-165 | every reminder is for a patient with an email and prescriptions, and for an unfilled prescription at this time not already reminded of |
| MedicationReminders.DueForComplete | App.tsx:155-165 | every unfilled prescription at this time not reminded of yet gets a reminder |
| MedicationReminders.DueRemindersComplete | App.tsx:153-165 | every such prescription of a patient with an email gets a reminder |
| MedicationReminders.NothingDueFor | App.tsx:160-165 | when every unfilled prescription was reminded of, a patient needs nothing |
| MedicationReminders.NothingDue | App.tsx:153-165 | when every unfilled prescription was reminded of, nothing is due |
| MedicationReminders.RemindersNotRepeated | App.tsx:160-165 | after one tick's reminders are appended, the same time of day creates none again |
| MedicationReminders.ReminderSimulation.constructor | App.tsx:96 | the time of day starts at Morning with no reminders |
| MedicationReminders.ReminderSimulation.Tick | App.tsx:142-200 | the due reminders are appended after the existing ones and the time of day advances by one modulo 4 |
| MedicationReminders.ReminderSimulation.Dismiss | App.tsx:489-491 | reminders with that id are dropped; the time of day is kept |
| MedicationReminders.WithoutId | App.tsx:489-491 | a reminder stays exactly when its id differs; a one-item list is kept or emptied by that test |
| MedicationReminders.WithoutIdAppend | App.tsx:489-491 | dismissal distributes over concatenation, so the kept reminders stay in order with their copies |
| VitalsCheck.AreVitalsAbnormal | App.tsx:51-60 | a present non-zero SpO2 below 90 or heart rate outside [50, 130] is abnormal; abnormal needs some truthy reading or a blood pressure |
| VitalsCheck.BeforeSlash | App.tsx:57 | the text before the first `/`, or all of it when there is none |
| VitalsCheck.BeforeSlashOfJoin | App.tsx:57 | splitting `a/b` gives back `a` when `a` has no `/` |
| VitalsCheck.NoSlashInNumeral | App.tsx:57 | a printed integer contains no `/` |
| VitalsCheck.AbnormalReading | App.tsx:51-60 | for a `sys/dia` reading, abnormal exactly when a present non-zero SpO2 is below 90, a present non-zero heart rate is outside [50, 130], or systolic is outside [90, 180] |
| VitalsCheck.AbsentReadingsAreNormal | App.tsx:54-58 | missing or zero readings never raise the test |
| VitalsCheck.SeededVitalsNormal | constants.ts:536-586 | the three seeded cases' vitals are within range |
| VitalsCheck.Bay1VitalsNormal | constants.ts:536-586 | bay 1's seeded vitals are within range |
| VitalsCheck.Bay2VitalsNormal | constants.ts:536-586 | bay 2's seeded vitals are within range |
| VitalsCheck.Bay3VitalsNormal | constants.ts:536-586 | bay 3's seeded vitals are within range |
| VitalsCheck.TickKeepsAlarmsJustified | App.tsx:220-230 | the fabricated readings fail the threshold test, so every alarm the tick raises is justified by the test |
| VitalsCheck.SilenceInSeededBayIsNormal | App.tsx:402-417 | silencing an item in bay 1 to 3 brings its vitals back within range |
| Decimal.DigitChar | App.tsx:379 | the character of a digit reads back as that digit |
| Decimal.NatToDecimal | App.tsx:379 | a non-empty run of decimal digits, starting with `0` only for zero, one digit exactly below ten |
| Decimal.IntToDecimal | App.tsx:379 | a leading `-` exactly for negatives, then the digits of the magnitude without leading zeros |
| Decimal.DigitPrefixLength | App.tsx:58 | the longest prefix of digits of the radix |
| Decimal.TrimLeadingWhiteSpace | App.tsx:58 | the result does not start with white space, and text that does not start with it is kept |
| Decimal.TrimDropsOnlyWhiteSpace | App.tsx:58 | trimming leaves a suffix of the input, and every dropped character is white space |
| Decimal.ReadDigits | App.tsx:58 | a value exactly when the text starts with a digit, and then the value of the longest digit prefix |
| Decimal.Unsigned | App.tsx:58 | exactly one leading `-` or `+` dropped, otherwise the text unchanged |
| Decimal.ParseIntNeedsDigit | App.tsx:58 | `parseInt` gives a number only when the text holds a digit, and a negative one only when it holds a `-` |
| Decimal.ParseIntOfPlainDigits | App.tsx:58 | text starting with a digit and no hex prefix parses as its digit prefix |
| Decimal.ParseIntOfMinusDigits | App.tsx:58 | `-` then such digits parses as the negated digit prefix |
| Decimal.DigitsOfNatToDecimal | App.tsx:379 | printed digits read back as the number |
| Decimal.DigitPrefixOfDigitsThen | App.tsx:58 | the digit prefix of digits-then-non-digit is exactly the digits |
| Decimal.ParseIntOfIntToDecimal | App.tsx:58 | `parseInt` reads a printed integer back, followed by `/` or nothing |
| Decimal.ParseIntOfUnsigned | App.tsx:58 | the same for a non-negative integer |
| Decimal.ParseIntOfNegative | App.tsx:58 | the same for a negative integer |
| Decimal.ReadDigitsOfDecimal | App.tsx:58 | a printed numeral has no hex prefix and reads back as its value |
| Decimal.IntToDecimalInjective | App.tsx:379 | distinct integers print differently |
| RecordLists.ReplaceById | App.tsx:483-487 | entries with the updated id become the update; others unchanged |
| RecordLists.AddRecord | App.tsx:475-481 | the new record comes first, the old list follows unchanged |
| RecordLists.Ids | App.tsx:483-487 | the ids of the list, in order |
| RecordLists.ReplaceByIdKeepsIds | App.tsx:483-487 | an update never changes the list's ids or their order |
| RecordLists.ReplaceUnknownIdIsNoOp | App.tsx:552-559 | an update with an id not in the list changes nothing |
| RecordLists.ReplaceByIdLastWins | App.tsx:583-587 | two updates of one id leave only the later one |
| RecordLists.EditAddedRecord | App.tsx:569-587 | editing a record just added with a fresh id changes only the front entry |
| RecordLists.LabTestIdsDistinct | App.tsx:572 | orders at different times get different `lab-` ids |
| RecordLists.LabTestIdAt | App.tsx:572 | the id is `lab-` followed by the printed time |
| RecordLists.UpdateLabTest | App.tsx:583-587 | ids are kept; entries with the updated id become the update and all others are unchanged |
| RecordLists.OrderLabTest | App.tsx:569-581 | without a user nothing changes; otherwise an Ordered test by that user goes in front |
| RecordLists.UpdateNewLabOrder | App.tsx:569-587 | a newly ordered test is then updated in place, in front of the old list |
| Scenarios.UrgentArrivalGoesBetween | App.tsx:352-365 | a queue [CRITICAL, NON_URGENT] plus an URGENT arrival becomes [CRITICAL, URGENT, NON_URGENT] |
| Scenarios.AdmitFirstOfThree | App.tsx:367-387 | admitting 1 with beds [Available, Occupied] succeeds, fills the first bed with `ER-1` and leaves [3, 2] |
| Scenarios.AdmitWithNoFreeBed | App.tsx:368-371 | with no Available bed admission fails and nothing changes |
| Scenarios.StaleRefScenario | App.tsx:235-265 | bay 2 alarms, interval 1 starts; after another arrival the ref still holds 1, nothing repeats and interval 1 stays silent, while the corrected cleanup starts interval 2 for bay 2 |

## Left out

- Rendering, login, session restore, language switching, case sheets, appointments and the desktop Notification permission flow: these are UI and browser I/O.
- The `new Notification(...)` calls of the reminder tick: these are browser output. `ReminderSimulation.Tick` returns the reminders it creates instead.
- ReminderSimulation.Tick: assumes the Notification API exists and its constructor does not throw. In the source, reading `Notification.permission` (App.tsx:180) where `Notification` is undefined, or a refused `new Notification(...)` (App.tsx:189), throws out of the interval callback. The new reminders are then not appended (App.tsx:193-198) and the time of day does not advance (App.tsx:200). The model always appends and advances.
- The speech engine, `setInterval` and `clearInterval`: these are browser APIs. The model has speech events, interval ids and the set of running intervals, and no real time.
- The simulation interval's own restart on every queue change: its timing is not modelled, and each firing is `SimulationTick`.
- `Math.random()` and `Date.now()`: these are parameters (`coin`, `roll`, `now`, `ids`).
- React state batching, and the stale `beds` closure read by the admission handler: handlers run as sequential steps.
- `handleAddComplaint`: it awaits an external AI classification service.
- `generateVitalsHistory`: it is random floating-point jitter.
- The appointment sort by parsed dates.
- Temperatures and costs are reals, not IEEE doubles: rounding is not modelled.
- Explicitly `undefined` fields in a vitals patch: an absent field of the patch keeps the old value.
- Patient fields no handler here reads or writes, and the mortuary, complaint and ADR record contents: the record lists are generic over the record type.
- `Decimal.IsWhiteSpace`: it covers ASCII white space, no-break space, the byte-order mark and the line and paragraph separators, not every Unicode space separator `parseInt` skips.
- `Decimal.IntToDecimal`: it prints integers only, as the next line explains.
- TrimLeadingWhiteSpace: its own ensures give the shape of the result only; that trimming drops white space and nothing else is the lemma `Decimal.TrimDropsOnlyWhiteSpace`, kept apart so that every unfolding of `parseInt` does not carry it.
- ParseInt: the function carries no ensures of its own; what it returns is stated by `Decimal.ParseIntNeedsDigit`, `Decimal.ParseIntOfPlainDigits`, `Decimal.ParseIntOfMinusDigits` and the round trip `Decimal.ParseIntOfIntToDecimal`.
- JavaScript numbers are IEEE doubles; the model uses unbounded integers for queue ids, times, quantities and stock. `${n}` prints exponent form from 1e21 on, integers above 2^53 are not exact, and `quantity: number` (App.tsx:302) may be fractional and is then printed with a fraction in the bill description (App.tsx:318). None of this is modelled.

## Findings

| source | as written | input that shows it | evidently intended | confidence | as-written member | corrected member |
|---|---|---|---|---|---|---|
| App.tsx:259-265 | the effect cleanup clears the repeat interval but leaves `speechIntervalRef` holding its id, so the next effect run (App.tsx:237) sees a non-null ref and starts nothing | bay 2 alarms and interval 1 starts; another patient is then added while bay 2 still alarms; the siren stays silent | the cleanup also nulls the ref, so the siren keeps announcing while any item alarms | not executed | AlarmNotifier.StaleRefMutesSiren | AlarmNotifier.SirenFollowsQueue |
