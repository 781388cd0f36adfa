# Scheduling board: appointment logic

A model of the client-side logic of a single-location massage scheduling
board. The board is a day view: one column per worker and one row per
15-minute slot from 09:00 to 21:45. Appointments are drawn as blocks,
dragged to reschedule, edited in forms and moved through a three-state
status (booked, checked-in, finished). The repository holds two revisions
of the board page, and both are modelled:

- `Dashboard` (`app/dashboard/page.tsx`) is the later revision. It reads
  appointments from the appointments API, sends every change to it, and
  reloads the day afterwards; deletion instead filters the local list. Its
  record type (`Records`, `types/appointment.ts`) has a status, a
  preference and optional notes. The interface declares no `id`, but the
  page reads and sends `appointment.id`, so the model gives the record an
  optional id.
- `InMemoryBoard` (`app/page.tsx`) is the earlier revision. It keeps the
  list in page state, starting from three mock records. Its own record
  type has a required string id, and new ids come from `Date.now()`.

Shared modules:

- `Clock`: an instant is an integer number of milliseconds on the local
  time axis. The page reads a `Date` only as the minute of its day
  (`getHours()*60 + getMinutes()`), its calendar day, and millisecond
  differences.
- `Grid`: the slot loop and the overlap test.
- `Workers`: column reordering with two `splice` calls.
- `Seqs`: `filter`.
- `Wrappers`: `Option` and `Result`.

Three kinds of input come from outside the page, and the model takes them
as parameters:

- the clock ("now", and fresh ids from `Date.now()`);
- the instants decoded from the form's date and time strings;
- the server's answers: whether a request succeeded, and what reloading
  the day returned.

The page's state (appointments, worker order, displayed day) is a class
per revision (`Dashboard.Board`, `InMemoryBoard.Board`). Its handler
methods are specified by the pure list functions, and the lemmas are about
those functions.

Notes on the code:

- From "booked" the status menu offers only "checked-in", so reaching
  "finished" takes two steps (`Dashboard.MenuReachesEveryStatus`).
- The earlier revision's record has a required id (`app/page.tsx:7-14`),
  while `types/appointment.ts` declares none.
- Blocks on the later board are 120 px per hour and rows 30 px high
  (`app/dashboard/page.tsx:240`, `:1058`), although the comments there
  still speak of 80 px per hour and 20 px rows.

## Model

| member | source | states |
|---|---|---|
| Clock.IsSameDay | app/dashboard/page.tsx:225-231 | two instants on the same calendar day are less than a day apart (also `app/page.tsx:43-49`) |
| Records.HasId | app/dashboard/page.tsx:79 | the `!appointment.id` guard fails exactly for a missing id and for the empty string |
| Clock.MinuteOfDay | app/dashboard/page.tsx:1403-1406 | the minute of the day lies in 0..1439 and is the whole minute the instant falls in |
| Clock.AtTime | app/dashboard/page.tsx:1315-1316 | `setHours(h, m, 0, 0)` gives a whole-minute instant on the same day, at minute `60h+m` |
| Grid.TimeSlots | app/dashboard/page.tsx:1191-1197 | the nested loops produce exactly the 52 grid rows (`GridSlots`) |
| Grid.GridSlotAt | app/dashboard/page.tsx:1192-1197 | row `i` starts at minute `540 + 15i`, with hour 9..21 and minute 0, 15, 30 or 45 |
| Grid.GridSlotsIncreasing | app/dashboard/page.tsx:1192-1197 | rows are strictly increasing, from 540 (09:00) to 1305 (21:45) |
| Grid.GridSlotStart | app/dashboard/page.tsx:1192-1197 | a minute starts a row exactly when it is a quarter hour from 09:00 to 21:45 |
| Grid.SlotsTileWindow | app/dashboard/page.tsx:1407-1408 | each minute of 09:00–22:00 lies in exactly one row, row `(m-540)/15` |
| Grid.OverlapsSharedMinute | app/dashboard/page.tsx:1410-1414 | the overlap test holds iff the appointment's minutes and the slot's share a minute (for an appointment ending after it starts) |
| Workers.ReorderWorkers | app/dashboard/page.tsx:1338-1345 | the two splices on a copied buffer yield `Moved(workers, from, to)` |
| Workers.SpliceOut | app/dashboard/page.tsx:1341 | `splice(from, 1)` in place: every slot before the last holds the list with `from` removed |
| Workers.SpliceIn | app/dashboard/page.tsx:1342 | `splice(to, 0, x)` in place: slots before `to` unchanged, `x` at `to`, the rest shifted one right |
| Workers.Moved | app/dashboard/page.tsx:1340-1342 | the two splices keep the length and put the dragged worker at `to` |
| Workers.MovedAt | app/dashboard/page.tsx:1341-1342 | element by element, the result is the list without `from` with the moved worker spliced in at `to` |
| Workers.MovedLength | app/dashboard/page.tsx:1340-1342 | reordering keeps the number of columns |
| Workers.MovedPermutation | app/dashboard/page.tsx:1340-1342 | reordering is a permutation (same multiset) |
| Workers.MovedPlacement | app/dashboard/page.tsx:1340-1342 | the moved worker sits at `to`; the others keep their relative order |
| Workers.MovedRoundTrip | app/dashboard/page.tsx:1338-1345 | moving back from `to` to `from` restores the original order |
| Workers.MovedInPlace | app/dashboard/page.tsx:1338-1345 | a move onto the same index changes nothing |
| Dashboard.UpdateRequest | app/dashboard/page.tsx:77-100 | an update is refused before any request iff the id is missing or empty; otherwise the whole record is PUT |
| Dashboard.DeleteRequest | app/dashboard/page.tsx:118-131 | a delete is refused before any request iff the id is missing or empty; otherwise only the id is sent |
| Dashboard.WithoutId | app/dashboard/page.tsx:1386-1388 | the local delete keeps exactly the records whose id differs |
| Dashboard.WithoutIdExact | app/dashboard/page.tsx:1386-1388 | every copy of a record with the id goes, every other copy stays, in order |
| Dashboard.WithoutIdAbsentAndIdempotent | app/dashboard/page.tsx:1383-1392 | deleting an absent id changes nothing; deleting twice equals deleting once |
| Dashboard.CellAppointments | app/dashboard/page.tsx:1394-1416 | a cell holds exactly the worker's appointments with `start < slot+15` and `end > slot` |
| Dashboard.CellKeepsOrder | app/dashboard/page.tsx:1398-1415 | a cell keeps the loaded order of the appointments |
| Dashboard.IsFirst | app/dashboard/page.tsx:1062-1065 | `isFirst` holds only for a row whose 15 minutes contain the start (it is stricter: the start must be the row's minute) |
| Dashboard.RenderedBlocks | app/dashboard/page.tsx:864-866 | a cell draws only the worker's appointments starting on its minute, each no more often than it is loaded |
| Dashboard.RenderedExactly | app/dashboard/page.tsx:1061-1065 | a cell draws exactly the worker's appointments starting on its minute whose end minute of the day is later than their start minute |
| Dashboard.RenderedAtMostOnce | app/dashboard/page.tsx:864-866 | within a column, at most one row draws a given appointment |
| Dashboard.OffQuarterNeverRendered | app/dashboard/page.tsx:1062-1065 | an appointment not starting on a quarter hour is drawn by no row |
| Dashboard.OffQuarterAppointmentInvisible | app/dashboard/page.tsx:1048-1065 | a 10:05–11:00 appointment fills its worker's 10:00 cell but is drawn nowhere |
| Dashboard.IntendedRenderedOnce | app/dashboard/page.tsx:243-253 | with the corrected rule, each appointment starting 09:00–22:00 is drawn in exactly one row, its top inside that row |
| Dashboard.IntendedExtendsWritten | app/dashboard/page.tsx:1062-1065 | the corrected rule draws all the written rule draws, and the two agree on quarter-hour starts |
| Dashboard.DurationHours | app/dashboard/page.tsx:233-235 | the duration in hours times 3 600 000 is the duration in milliseconds |
| Dashboard.BlockHeight | app/dashboard/page.tsx:233-241 | block height is the larger of 120 px per hour of duration and 20 px |
| Dashboard.BlockHeightPerMinute | app/dashboard/page.tsx:237-241 | a block of `d` whole minutes is `max(2d, 20)` px high |
| Dashboard.BlockSpansRows | app/dashboard/page.tsx:1058 | a block lasting `k` slots is exactly `k` rows (30 px each) high |
| Dashboard.BlockTop | app/dashboard/page.tsx:243-253 | the top is 0 when the start is the row's minute, and inside the row (0 to 30 px) when the start is in the row's 15 minutes |
| Dashboard.BlockTopPerMinute | app/dashboard/page.tsx:243-253 | the block top is 2 px per minute of start offset from the row |
| Dashboard.RenderedBlockAtRowTop | app/dashboard/page.tsx:864-869 | every drawn block has top 0 |
| Dashboard.NowLine | app/dashboard/page.tsx:200-223 | the now line shows iff same day and 09:00 ≤ now ≤ 22:00, between 49 px and the grid's bottom |
| Dashboard.NowLineAlignsWithRows | app/dashboard/page.tsx:205-218 | the now line crosses the row holding the current minute, where a block starting now would have its top |
| Dashboard.DroppedAppointment | app/dashboard/page.tsx:1309-1326 | the new start is the target day at the slot's time with seconds cleared, the duration is kept, the worker is the target's, all else unchanged |
| Dashboard.DroppedIsRenderedAtTarget | app/dashboard/page.tsx:1309-1326 | a dropped appointment of at least a minute, ending that day, is drawn by the target row of the target column |
| Dashboard.DropRequest | app/dashboard/page.tsx:1320-1328 | a drop is refused iff the id is missing, with the update error; otherwise it PUTs exactly `DroppedAppointment(...)`: same id, new worker, same duration |
| Dashboard.MenuOptions | app/dashboard/page.tsx:172-195 | the menu never offers the current status; "finished" only from "checked-in"; "checked-in" unless checked-in; "booked" unless booked; no duplicates |
| Dashboard.MenuReachesEveryStatus | app/dashboard/page.tsx:172-195 | any status reaches any other in at most two choices; only booked→finished is not direct |
| Dashboard.StatusChanged | app/dashboard/page.tsx:1130-1133 | a status change alters only the status |
| Dashboard.StatusChangeRequest | app/dashboard/page.tsx:1126-1136 | a status change is refused iff the id is missing; otherwise it PUTs the record with the new status |
| Dashboard.FormCheck | app/dashboard/page.tsx:320-336 | "fill in all fields" iff one of the six fields is empty; "select a worker" iff preference is specific with none chosen |
| Dashboard.NewAppointment | app/dashboard/page.tsx:1226-1259 | a created record is booked, has no id, copies the form, and has a specific worker exactly when the preference is specific |
| Dashboard.EditedAppointment | app/dashboard/page.tsx:582-622 | an edit passes the same checks and keeps the record's id and status |
| Dashboard.WellFormedPreserved | app/dashboard/page.tsx:1320-1325 | dragging and status changes keep a record well formed |
| Dashboard.Board.constructor | app/dashboard/page.tsx:1158-1167 | the page starts with no appointments and five workers |
| Dashboard.Board.Submit | app/dashboard/page.tsx:1327-1335 | a refused request sends nothing; a sent request reloads the day on success (empty list if the reload fails) and leaves state alone on failure |
| Dashboard.Board.AddAppointment | app/dashboard/page.tsx:1226-1288 | an invalid form sends nothing and changes nothing; a valid one POSTs the built record |
| Dashboard.Board.QuickAddSave | app/dashboard/page.tsx:1290-1307 | POSTs the quick-add record, then reloads |
| Dashboard.Board.DropAppointment | app/dashboard/page.tsx:1309-1336 | without id nothing is sent and nothing changes; with id the moved record is PUT |
| Dashboard.Board.StatusChange | app/dashboard/page.tsx:1126-1144 | without id nothing is sent; with id the record with the new status is PUT |
| Dashboard.Board.AppointmentSave | app/dashboard/page.tsx:1371-1381 | without id nothing is sent; with id the edited record is PUT |
| Dashboard.Board.AppointmentDelete | app/dashboard/page.tsx:1383-1392 | without id nothing is sent; after a successful DELETE the records with that id leave local state |
| Dashboard.Board.ReorderWorker | app/dashboard/page.tsx:1338-1345 | the columns become `Moved(old, from, to)`; appointments unchanged |
| InMemoryBoard.WithId | app/page.tsx:760-764 | attaching an id keeps every other field of the draft |
| InMemoryBoard.MockAppointments | app/page.tsx:16-41 | the board starts with three records with distinct ids |
| InMemoryBoard.DraftFromForm | app/page.tsx:128-154 | quick-add is rejected iff one of the six fields is empty; otherwise the draft copies the form |
| InMemoryBoard.EditedAppointment | app/page.tsx:322-351 | an edit is rejected iff a field is empty and keeps the record's id |
| InMemoryBoard.QuickAdded | app/page.tsx:760-766 | quick-add appends exactly one record with the fresh id; earlier records unchanged |
| InMemoryBoard.Added | app/page.tsx:725-758 | an empty field leaves the list unchanged; otherwise exactly one record is appended |
| InMemoryBoard.Saved | app/page.tsx:826-832 | every record with the updated id becomes the update; all others, the length and the order stay |
| InMemoryBoard.Deleted | app/page.tsx:834-836 | keeps exactly the records whose id differs |
| InMemoryBoard.DroppedCopy | app/page.tsx:774-787 | the moved snapshot: target day and slot time, same duration, new worker, all else from the dragged snapshot |
| InMemoryBoard.Dropped | app/page.tsx:779-790 | only records with the dragged id change; the length is kept |
| InMemoryBoard.DroppedIsSavedCopy | app/page.tsx:768-791 | a drop is a save of the moved snapshot; each replaced record keeps the duration |
| InMemoryBoard.SavedIdsAndIdempotent | app/page.tsx:826-832 | saving changes no id, is idempotent, and leaves the list alone if the id is absent |
| InMemoryBoard.DeletedExact | app/page.tsx:834-836 | delete removes every copy with the id and keeps the rest in order; an absent id changes nothing; idempotent |
| InMemoryBoard.QuickAddedThenDeleted | app/page.tsx:760-766 | quick-adding under an unused id and deleting that id gives back the list |
| InMemoryBoard.SavedThenDeleted | app/page.tsx:826-836 | saving then deleting the id equals deleting the id |
| InMemoryBoard.SavedKeepsUnique | app/page.tsx:826-832 | saving keeps ids unique |
| InMemoryBoard.DeletedKeepsUnique | app/page.tsx:834-836 | deleting keeps ids unique |
| InMemoryBoard.QuickAddedUniqueIff | app/page.tsx:760-766 | adding keeps ids unique iff the `Date.now()` id is unused |
| InMemoryBoard.HandlersKeepUniqueIds | app/page.tsx:760-836 | save, drop and delete keep ids unique; add does so iff the fresh id is unused |
| InMemoryBoard.CellAppointments | app/page.tsx:838-860 | a cell holds exactly the worker's appointments on the displayed day whose minutes overlap the slot |
| InMemoryBoard.CellKeepsOrder | app/page.tsx:842-859 | a cell keeps list order |
| InMemoryBoard.RenderedBlocks | app/page.tsx:660-664 | a cell draws only the worker's appointments of the displayed day starting on its minute, each no more often than it is listed |
| InMemoryBoard.RenderedAtMostOnce | app/page.tsx:660-664 | within a column, at most one row draws an appointment, and only on the displayed day |
| InMemoryBoard.BlockHeight | app/page.tsx:51-58 | block height is the larger of 80 px per hour of duration and 20 px |
| InMemoryBoard.BlockHeightPerMinute | app/page.tsx:55-58 | for `d` whole minutes, `3·height = max(4d, 60)` |
| InMemoryBoard.BlockSpansRows | app/page.tsx:657 | a block lasting `k` slots is exactly `k` rows (20 px each) high |
| InMemoryBoard.BlockTop | app/page.tsx:60-69 | the top is 0 when the start is the row's minute, and inside the row (0 to 20 px) when the start is in the row's 15 minutes |
| InMemoryBoard.BlockTopPerMinute | app/page.tsx:60-69 | `3·top = 4·(start minute − slot minute)` |
| InMemoryBoard.Board.constructor | app/page.tsx:680-690 | the page starts with the mock records (distinct ids) and five workers |
| InMemoryBoard.Board.AddAppointment | app/page.tsx:725-758 | the list becomes `Added(old, …)` |
| InMemoryBoard.Board.QuickAddSave | app/page.tsx:760-766 | the list becomes `QuickAdded(old, …)` |
| InMemoryBoard.Board.DropAppointment | app/page.tsx:768-791 | the list becomes `Dropped(old, …)`; unique ids stay unique |
| InMemoryBoard.Board.ReorderWorker | app/page.tsx:793-800 | the columns become `Moved(old, from, to)` |
| InMemoryBoard.Board.AppointmentSave | app/page.tsx:826-832 | the list becomes `Saved(old, updated)`; unique ids stay unique |
| InMemoryBoard.Board.AppointmentDelete | app/page.tsx:834-836 | the list becomes `Deleted(old, id)`; unique ids stay unique |

The earlier revision has the same slot loop (`app/page.tsx:712-717`) and
the same reorder (`app/page.tsx:793-800`). Both use `Grid.TimeSlots` and
`Workers.ReorderWorkers`.

## Findings

| source | as written | input that shows it | evidently intended | confidence | as-written member | corrected member |
|---|---|---|---|---|---|---|
| app/dashboard/page.tsx:1062-1065 | a cell draws a block only when the appointment's start minute equals the slot's minute (same rule at app/page.tsx:660-664) | a 10:05–11:00 appointment for Alice: it fills her 10:00 cell, so that cell cannot be clicked, but no row draws it | draw the block in the row whose 15 minutes contain the start, offset by `getAppointmentTop` (which is otherwise always 0) | medium, not executed | Dashboard.OffQuarterAppointmentInvisible | Dashboard.IntendedRenderedOnce |

## Left out

- Network and server. `fetch` calls, the API route (`app/api/appointments/route.ts`) and the database are not part of this model. The server's success or failure and the reloaded list are handler parameters.
- Time zones. The fixed Texas offset and its day shift, and `toISOString` day strings, are not modelled. Instants are local and every day is 24 hours long, so daylight-saving days are not modelled.
- Text and dates. Parsing `date` plus `time` strings into a `Date` is not modelled; the decoded instants are parameters. The same holds for `toTimeString`, `toLocaleTimeString`, time labels (`shouldShowTimeLabel`, `formatTimeSlot`) and the quick-add form's prefilled text.
- UI plumbing. Left out: drag-and-drop hooks and previews, JSX and CSS, `confirm`, the one-minute timer, the navigation bar, modal and form visibility, form resets, and opening quick-add on an empty cell.
- Colours. The colour of a block by status, overdue time and preference is presentational and not modelled.
- Concurrency. Each `async` handler is one atomic step from request to reload. An `await` that lets another handler update the state in between is not modelled.
- Numbers. JavaScript numbers are doubles; the model computes exactly, in integers and reals.
- Workers.ReorderWorkers: requires both indices to be column indices. `splice` with an index outside the list (clamping, inserting `undefined`) is not modelled, because the only caller passes the indices of existing columns.
- Dashboard.Board.Submit: the `error` result names the reason a handler stopped. The user sees a generic "Failed to …" alert whose text is not modelled.
