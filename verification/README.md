# Cat feeding checklist — a Dafny model

This project models the feeding logic of a cat-feeding tracker. Each cat
has a daily schedule: a list of `"HH:MM"` labels. The feed screen turns that
schedule into today's checklist of slots. Each slot has an instant today, a
`future` flag and a `fed` flag. The screen then reconciles the slots against
the cat's feedings logged today. The model also covers the feeding store:
how a feeding document is written and read back, and the filter that selects
one cat's feedings for today.

Everything is a pure function of explicit inputs:

- An instant is an integer number of milliseconds.
- `dayStart` is the instant of today's local midnight.
- `now` is the instant of derivation. It is captured once per call, so
  every slot in one call is compared with the same instant.
- A snapshot of the feeding collection is a sequence of (id, document)
  pairs, newest first.

Modules:

- `Wrappers`: `Option` and `Result`.
- `Clock`: wall-clock offsets within a day (`setHours`, dayjs
  `hour().minute().second().millisecond()`), and the inclusive day window.
- `Labels`: `split(":")`, decimal digit runs, the two-digit padding the
  schedule editor (`app/(protected)/cat/new.tsx`) writes labels with, and
  the parse of a label into a time of day.
- `Slots` (`src/features/feedings/utils.ts`): `Slot`, `BuildSlotsForToday`
  and `MarkFed`.
- `Feedings` (`src/features/feedings/store.tsx`): `Feeding`, the document
  shape, `LogFeeding`, `ReadFeeding`, `ReadSnapshot` and `GetForCatToday`.
- `Checklist`: how the feed screen (`app/(protected)/(tabs)/feed.tsx`)
  combines the two. It filters today's feedings of the selected cat,
  derives the slots, marks them, and lets a slot be ticked only when it
  is neither future nor fed. Its rows below cite the store and
  reconciliation lines the composition rests on.
- `Scenarios`: concrete one-day checklists.

`label` is a reserved word in Dafny, so the slot's label field is called
`text`.

## Model

| member | source | states |
|---|---|---|
| Clock.OffsetOf | src/features/feedings/utils.ts:14 | A clock reading lies within the day. Its whole minutes are hour*60+minute, and its millisecond part is the reading's milliseconds. |
| Clock.ClockOffsetRoundTrip | src/features/feedings/utils.ts:14 | Converting a reading to an offset and back returns the same hour, minute, second and millisecond. So distinct readings give distinct instants. |
| Clock.At | src/features/feedings/utils.ts:14 | Setting the clock on the day that starts at `dayStart` gives an instant in [dayStart, dayStart + 24h). |
| Clock.DayWindowIsWholeDay | src/features/feedings/store.tsx:77-80 | The inclusive window [00:00:00.000, 23:59:59.999] holds exactly the milliseconds of the 24-hour day. |
| Labels.Split | src/features/feedings/utils.ts:13 | `split` returns at least one part, and no part contains the separator. |
| Labels.JoinSplit | src/features/feedings/utils.ts:13 | Joining the parts of a split with the separator rebuilds the string, so splitting loses nothing. |
| Labels.FormatLabel | src/features/feedings/utils.ts:4 | The canonical "HH:MM" label, shown at this line as `"08:00"`. It is the label the schedule editor writes with `padStart(2, "0")` (app/(protected)/cat/new.tsx lines 90-93 and 360-367): five characters with ':' in the middle. |
| Labels.ParseLabel | src/features/feedings/utils.ts:13 | A label that parses contains ':' and denotes a valid hour (0-23) and minute (0-59). |
| Labels.ParseDigitGroups | src/features/feedings/utils.ts:13 | Any two digit runs around one ':', padded or not ("8:00", "08:5", "008:00"), whose values are below 24 and 60, parse to exactly the hour and minute those runs denote, as `Number` reads each group. |
| Labels.ParseAcceptsOnlyDigitGroups | src/features/feedings/utils.ts:13 | Conversely, every accepted label is two digit runs around one ':', and it denotes the values of those runs. |
| Labels.ParseFormat | src/features/feedings/utils.ts:13 | Every valid time of day, written as the editor writes it, parses back to that time of day. |
| Labels.FormatParse | src/features/feedings/utils.ts:4 | A five-character "DD:DD" label that parses is canonical: formatting its time of day returns the same label. |
| Slots.BuildSlotsForToday | src/features/feedings/utils.ts:10-17 | Derivation succeeds exactly when every label parses. On success there is one slot per label, in input order. Slot i has label times[i], instant dayStart + (H*60+M)*60000 and fed = false, and it is future iff that instant is strictly after `now`. On failure the error names the first label that does not parse. |
| Slots.SlotsAreToday | src/features/feedings/utils.ts:14 | Every derived instant lies in today's window and falls on a whole minute: seconds and milliseconds are zero. |
| Slots.DerivedSlotIsToday | src/features/feedings/utils.ts:14 | A slot derived from a valid label lies between 00:00:00.000 and 23:59:59.999 of today, on a whole minute. |
| Slots.FutureIsConsistent | src/features/feedings/utils.ts:11-15 | With one `now` per call, every future slot is strictly later than every slot that is not future. |
| Slots.AnyLabelled | src/features/feedings/utils.ts:24 | `some` is true iff some feeding's label equals the given string. A feeding without a label matches nothing. |
| Slots.MarkFed | src/features/feedings/utils.ts:19-27 | The result has the same length. Each slot keeps its label, instant and future flag. Each slot is fed iff some feeding carries exactly its label, whatever its previous fed flag was. |
| Slots.MarkFedDependsOnlyOnLabels | src/features/feedings/utils.ts:24 | Two feeding lists that carry the same set of labels give the same reconciliation. Timestamps, order, multiplicity and unlabelled feedings play no part. |
| Slots.MarkFedOverwrites | src/features/feedings/utils.ts:25 | Slots that differ only in their previous fed flags reconcile to the same result, because the flag is overwritten and not OR-ed. |
| Slots.MarkFedIdempotent | src/features/feedings/utils.ts:23-25 | Reconciling twice against the same feedings gives the same result as reconciling once. |
| Slots.SameLabelSameFed | src/features/feedings/utils.ts:23-25 | Slots that share a label always get the same fed flag. |
| Feedings.ToField | src/features/feedings/store.tsx:70-72 | `x ?? null` never writes a missing field, and writes `null` exactly for an absent value. |
| Feedings.FromField | src/features/feedings/store.tsx:50-53 | A stored string reads back as present with that value. A missing or `null` field reads as absent. |
| Feedings.FieldRoundTrip | src/features/feedings/store.tsx:70 | An optional label or user id written with `?? null` reads back unchanged. |
| Feedings.LogFeeding | src/features/feedings/store.tsx:67-74 | The added document has the given cat id and a pending server timestamp. Its label and user fields are always written, never missing. |
| Feedings.ReadFeeding | src/features/feedings/store.tsx:45-55 | id and catId are copied unchanged. The label is present iff stored as a string. userId is absent iff missing or null. A resolved timestamp is kept, and a pending one reads as the instant of reading. |
| Feedings.LogReadRoundTrip | src/features/feedings/store.tsx:45-74 | A logged feeding, committed by the server at t, reads back with exactly the cat, label and user it was logged with, at timestamp t. |
| Feedings.ReadSnapshot | src/features/feedings/store.tsx:43-56 | The snapshot maps document by document, in the same length and order. Ids and cat ids are copied. Labels and user ids are read with `??`, so missing or null reads as absent. A resolved timestamp is kept, and a pending one reads as the instant of reading. |
| Feedings.GetForCatToday | src/features/feedings/store.tsx:76-84 | Every kept feeding has the given cat and a timestamp in [dayStart, dayStart + 86 399 999]. Every such input feeding is kept. The result is a subsequence of the input. |
| Feedings.GetForCatTodayCounts | src/features/feedings/store.tsx:81-83 | Each matching feeding is kept as many times as it occurs, and each other feeding occurs zero times. Together with order preservation, this fixes the result. |
| Feedings.SubsequenceKeepsNewestFirst | src/features/feedings/store.tsx:42 | A subsequence of a newest-first sequence is newest first, and every element comes from the original. |
| Feedings.TodayKeepsNewestFirst | src/features/feedings/store.tsx:42-83 | Today's feedings of a cat, filtered from a newest-first snapshot, are newest first. So the first of them is the latest feeding of the day. |
| Checklist.TodaysChecklist | src/features/feedings/utils.ts:10-12 | With no schedule, the checklist is empty. With a schedule, it succeeds iff every label parses; it then has one slot per label, in order. On failure it names a schedule label that does not parse. |
| Checklist.ChecklistFedIff | src/features/feedings/store.tsx:76-84 | The checklist has one slot per schedule label, in order. Each slot keeps the instant its label derives, and it is future iff that instant is after `now`. A slot is fed iff the cat has a feeding today, inside the inclusive day window, that carries the slot's label. |
| Checklist.TodayCarriesLabel | src/features/feedings/store.tsx:81-83 | Some feeding in today's list carries a label iff some feeding in the snapshot belongs to the cat, lies in today's window and carries that label. |
| Checklist.TodayMembersMatch | src/features/feedings/store.tsx:81-83 | Every feeding in today's list comes from the snapshot, belongs to the cat and lies in today's window. |
| Checklist.TickedSlotBecomesFed | src/features/feedings/store.tsx:67-84 | Suppose a slot is ticked, the server commits the logged document at an instant of today, and the snapshot read with the mapper holds that document. Then every slot with that label is fed and can no longer be ticked. |
| Checklist.ChecklistActionableIff | src/features/feedings/utils.ts:15-25 | A checklist slot can be ticked (neither future nor fed) iff its instant is not after `now` and the cat has no feeding today carrying its label. |
| Checklist.DueSlotsAreActionable | src/features/feedings/utils.ts:15 | Before reconciliation, a slot can be ticked exactly when its instant is not after `now`. |
| Scenarios.OutOfRangeHourFails | src/features/feedings/utils.ts:13-14 | Deriving from ["25:00"] fails with InvalidTimeFormat("25:00"). |
| Scenarios.MorningAndEvening | src/features/feedings/utils.ts:10-27 | At 14:00, 08:00 is not future and 20:00 is, and both start unfed. A feeding labelled "08:00" marks only the 08:00 slot. |
| Scenarios.DuplicateLabelsFedTogether | src/features/feedings/utils.ts:23-25 | Two "09:00" slots are both fed by a single "09:00" feeding. |

## Left out

- Labels.ParseLabel: the model is stricter than the code. The code reads a label with `split(":").map(Number)` and does not check it. An empty group reads as 0, and groups after the second are ignored. An out-of-range hour or minute rolls over into a neighbouring hour or day, so "25:00" becomes 01:00 tomorrow. A non-numeric group gives an invalid date. A label with no ':' at all ("0800", "") leaves the minute undefined: dayjs's `.minute(undefined)` is then the getter and returns a number, so the following `.second(0)` throws a TypeError. The model accepts only two non-empty digit groups with hour below 24 and minute below 60. It fails fast on every other label, rather than producing a rolled-over or invalid instant. Whitespace and signs, which `Number` tolerates, are rejected too.
- Slots.BuildSlotsForToday and Scenarios.OutOfRangeHourFails: a label the parse rejects makes derivation fail with `InvalidTimeFormat`. The code instead rolls "25:00" over to 01:00 the next day, throws on a label without ':', and yields an invalid date on a non-numeric group. Of these, the code's TypeError is the closest to the model's failure.
- Slots.BuildSlotsForToday: the code reads the clock twice, once for `now` and once per slot for today's date. The model takes one `now` and one `dayStart`, so it ignores a call that straddles midnight.
- Time zones and daylight saving: every day is taken to be 24 hours from its local midnight. On a transition day, `setHours` and dayjs would place instants differently.
- Feedings.GetForCatToday: the code builds the window ends with two separate `new Date()` calls. The model uses one `dayStart` for both ends.
- The Firestore calls (`onSnapshot`, `addDoc`, `serverTimestamp`, the `orderBy("timestamp", "desc")` query) are foreign I/O and are not modelled. The snapshot is an input, and `ServerCommit` stands in for the server assigning the timestamp.
- Feedings.ReadFeeding: the `new Date()` fallback for a still-pending timestamp is the parameter `readNow`. A document whose `catId` is missing is not modelled, because `logFeeding` always writes one.
- The React provider, the `useFeedings` hook, subscription cleanup and the rest of the screens are UI plumbing and are not modelled.
- The cats store, the authentication context and the Firebase auth wrapper are CRUD and SDK glue. The signed-in user's id enters only as the `currentUid` parameter of `LogFeeding`.
