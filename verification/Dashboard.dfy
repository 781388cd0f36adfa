/**
 * The later revision of the scheduling board (`app/dashboard/page.tsx`):
 * appointments come from the appointments API, every change is sent to it,
 * and the day is reloaded afterwards (deletion instead filters local state).
 */
module Dashboard {
  import opened Wrappers
  import opened Clock
  import opened Grid
  import opened Seqs
  import opened Workers
  import opened Records

  // ---------------------------------------------------------------------------
  // Requests to the appointments API, and why a handler stops
  // ---------------------------------------------------------------------------

  /** What a handler sends: POST a new record, PUT a whole record, DELETE by id. */
  datatype Request = Post(record: Appointment) | Put(record: Appointment) | Delete(id: string)

  datatype Failure =
    | MissingFields          // a required form field is empty
    | MissingSpecificWorker  // preference "specific" without a chosen worker
    | IdRequiredForUpdate    // `updateAppointment` on a record without id
    | IdRequiredForDeletion  // `deleteAppointment` on a record without id
    | RequestFailed          // the server answered with an error status

  /** `updateAppointment`: a record without a (truthy) id is refused before any request. */
  function UpdateRequest(a: Appointment): (r: Result<Request, Failure>)
    ensures r.Failure? <==> !HasId(a)
    ensures r.Failure? ==> r.error == IdRequiredForUpdate
    ensures r.Success? ==> r.value == Put(a) && a.id.Some? && a.id.value != ""
  {
    if !HasId(a) then Failure(IdRequiredForUpdate) else Success(Put(a))
  }

  /** `deleteAppointment`: the request body carries only the id, which must be present. */
  function DeleteRequest(a: Appointment): (r: Result<Request, Failure>)
    ensures r.Failure? <==> !HasId(a)
    ensures r.Failure? ==> r.error == IdRequiredForDeletion
    ensures r.Success? ==> r.value.Delete? && a.id == Some(r.value.id) && r.value.id != ""
  {
    if !HasId(a) then Failure(IdRequiredForDeletion) else Success(Delete(a.id.value))
  }

  // ---------------------------------------------------------------------------
  // Local delete
  // ---------------------------------------------------------------------------

  /** `prev.filter((appt) => appt.id !== appointment.id)`. */
  function WithoutId(appts: seq<Appointment>, id: Option<string>): (r: seq<Appointment>)
    ensures forall a :: a in r <==> a in appts && a.id != id
    ensures |r| <= |appts|
  {
    Filter((a: Appointment) => a.id != id, appts)
  }

  /**
   * The local delete removes every copy of every record carrying the id and
   * keeps every copy of every other record, and it keeps their order.
   */
  lemma WithoutIdExact(a1: seq<Appointment>, a2: seq<Appointment>, id: Option<string>, x: Appointment)
    ensures multiset(WithoutId(a1, id))[x] == if x.id != id then multiset(a1)[x] else 0
    ensures WithoutId(a1 + a2, id) == WithoutId(a1, id) + WithoutId(a2, id)
  {
    FilterCount((a: Appointment) => a.id != id, a1, x);
    FilterConcat((a: Appointment) => a.id != id, a1, a2);
  }

  /** Deleting an id nobody carries changes nothing; deleting twice is deleting once. */
  lemma WithoutIdAbsentAndIdempotent(appts: seq<Appointment>, id: Option<string>)
    ensures (forall a :: a in appts ==> a.id != id) ==> WithoutId(appts, id) == appts
    ensures WithoutId(WithoutId(appts, id), id) == WithoutId(appts, id)
  {
    if forall a :: a in appts ==> a.id != id {
      FilterKeepsAll((a: Appointment) => a.id != id, appts);
    }
    FilterIdempotent((a: Appointment) => a.id != id, appts);
  }

  // ---------------------------------------------------------------------------
  // Cells of the grid
  // ---------------------------------------------------------------------------

  /** The test of `getAppointmentsForCell`: same worker, and the minutes overlap the slot. */
  predicate InCell(a: Appointment, worker: string, s: TimeSlot) {
    a.customer == worker && Overlaps(StartMinutes(a), EndMinutes(a), s)
  }

  /** `getAppointmentsForCell(worker, timeSlot)` over the loaded appointments. */
  function CellAppointments(appts: seq<Appointment>, worker: string, s: TimeSlot): (r: seq<Appointment>)
    ensures forall a :: a in r <==>
              a in appts && a.customer == worker &&
              StartMinutes(a) < SlotMinutes(s) + SlotLength && EndMinutes(a) > SlotMinutes(s)
    ensures multiset(r) <= multiset(appts)
  {
    Filter((a: Appointment) => InCell(a, worker, s), appts)
  }

  /** A cell lists its appointments in the order they were loaded. */
  lemma CellKeepsOrder(a1: seq<Appointment>, a2: seq<Appointment>, worker: string, s: TimeSlot)
    ensures CellAppointments(a1 + a2, worker, s) ==
            CellAppointments(a1, worker, s) + CellAppointments(a2, worker, s)
  {
    FilterConcat((a: Appointment) => InCell(a, worker, s), a1, a2);
  }

  /** `isFirst`: the cell draws the block only when the slot starts at the appointment's start minute. */
  predicate IsFirst(a: Appointment, s: TimeSlot)
    ensures IsFirst(a, s) ==> InSlot(StartMinutes(a), s)
  {
    StartMinutes(a) == SlotMinutes(s)
  }

  /** The blocks a cell draws: `DraggableAppointment` returns nothing unless `isFirst`. */
  function RenderedBlocks(appts: seq<Appointment>, worker: string, s: TimeSlot): (r: seq<Appointment>)
    ensures forall a :: a in r ==> a in appts && a.customer == worker && StartMinutes(a) == SlotMinutes(s)
    ensures multiset(r) <= multiset(appts)
  {
    Filter((a: Appointment) => IsFirst(a, s), CellAppointments(appts, worker, s))
  }

  /** A cell draws exactly the worker's appointments that start on its minute and end later that day. */
  lemma RenderedExactly(appts: seq<Appointment>, worker: string, s: TimeSlot, a: Appointment)
    ensures a in RenderedBlocks(appts, worker, s) <==>
            a in appts && a.customer == worker &&
            StartMinutes(a) == SlotMinutes(s) && EndMinutes(a) > StartMinutes(a)
  {
  }

  /** Within one worker's column, at most one row draws a given appointment. */
  lemma RenderedAtMostOnce(appts: seq<Appointment>, worker: string, a: Appointment, i: int, j: int)
    requires 0 <= i < SlotCount && 0 <= j < SlotCount
    requires a in RenderedBlocks(appts, worker, GridSlots()[i])
    requires a in RenderedBlocks(appts, worker, GridSlots()[j])
    ensures i == j
  {
    RenderedExactly(appts, worker, GridSlots()[i], a);
    RenderedExactly(appts, worker, GridSlots()[j], a);
    GridSlotAt(i);
    GridSlotAt(j);
  }

  /** As written: an appointment that does not start on a quarter hour is drawn in no row at all. */
  lemma OffQuarterNeverRendered(appts: seq<Appointment>, worker: string, a: Appointment, i: int)
    requires 0 <= i < SlotCount
    requires StartMinutes(a) % SlotLength != 0
    ensures a !in RenderedBlocks(appts, worker, GridSlots()[i])
  {
    RenderedExactly(appts, worker, GridSlots()[i], a);
    GridSlotAt(i);
  }

  /**
   * A 10:05–11:00 appointment for Alice occupies her 10:00 cell (so that
   * cell cannot be clicked for a quick add), yet no row of her column draws it.
   */
  lemma OffQuarterAppointmentInvisible()
    ensures var a := Appointment(Some("7"), "555-0100", "Swedish", "Alice",
                                 10 * HourMs + 5 * MinuteMs, 11 * HourMs,
                                 Booked, None, Female, None);
            a in CellAppointments([a], "Alice", TimeSlot(10, 0)) &&
            forall i :: 0 <= i < SlotCount ==> a !in RenderedBlocks([a], "Alice", GridSlots()[i])
  {
    var a := Appointment(Some("7"), "555-0100", "Swedish", "Alice",
                         10 * HourMs + 5 * MinuteMs, 11 * HourMs,
                         Booked, None, Female, None);
    DayOfMinutes(0, 605);
    DayOfMinutes(0, 660);
    forall i | 0 <= i < SlotCount
      ensures a !in RenderedBlocks([a], "Alice", GridSlots()[i])
    {
      OffQuarterNeverRendered([a], "Alice", a, i);
    }
  }

  /** Intended rule: the row whose 15 minutes contain the start draws the block, offset by `getAppointmentTop`. */
  predicate IsFirstIntended(a: Appointment, s: TimeSlot) {
    InSlot(StartMinutes(a), s)
  }

  function IntendedBlocks(appts: seq<Appointment>, worker: string, s: TimeSlot): seq<Appointment> {
    Filter((a: Appointment) => IsFirstIntended(a, s), CellAppointments(appts, worker, s))
  }

  /**
   * With the intended rule every appointment of the worker that starts in
   * the 09:00–22:00 window and ends later that day is drawn in exactly one
   * row of the column, with its top edge inside that row.
   */
  lemma IntendedRenderedOnce(appts: seq<Appointment>, worker: string, a: Appointment)
    requires a in appts && a.customer == worker
    requires GridStart <= StartMinutes(a) < GridEnd && StartMinutes(a) < EndMinutes(a)
    ensures var i := (StartMinutes(a) - GridStart) / SlotLength;
            0 <= i < SlotCount &&
            a in IntendedBlocks(appts, worker, GridSlots()[i]) &&
            0.0 <= BlockTop(a, GridSlots()[i]) < CellHeight as real &&
            forall j :: 0 <= j < SlotCount && a in IntendedBlocks(appts, worker, GridSlots()[j]) ==> j == i
  {
    var m := StartMinutes(a);
    var i := (m - GridStart) / SlotLength;
    SlotsTileWindow(m);
    BlockTopPerMinute(a, GridSlots()[i]);
  }

  /** The intended rule draws everything the written rule draws, and the two agree on quarter-hour starts. */
  lemma IntendedExtendsWritten(appts: seq<Appointment>, worker: string, i: int, a: Appointment)
    requires 0 <= i < SlotCount
    ensures a in RenderedBlocks(appts, worker, GridSlots()[i]) ==>
            a in IntendedBlocks(appts, worker, GridSlots()[i])
    ensures StartMinutes(a) % SlotLength == 0 ==>
            (a in RenderedBlocks(appts, worker, GridSlots()[i]) <==>
             a in IntendedBlocks(appts, worker, GridSlots()[i]))
  {
    RenderedExactly(appts, worker, GridSlots()[i], a);
    GridSlotAt(i);
  }

  // ---------------------------------------------------------------------------
  // Geometry
  // ---------------------------------------------------------------------------

  /** Height of one row, `height: "30px"` on every cell. */
  const CellHeight: int := 30
  /** Offset of the first row below the top of the grid, added to the now line. */
  const HeaderHeight: int := 49
  const MinBlockHeight: real := 20.0

  /** `calculateDurationInHours(start, end)`. */
  function DurationHours(a: Appointment): (hours: real)
    ensures hours * 3_600_000.0 == (a.end - a.start) as real
  {
    (a.end - a.start) as real / 3_600_000.0
  }

  /** `getAppointmentHeight`: 120 px per hour, never below 20 px. */
  function BlockHeight(a: Appointment): (h: real)
    ensures h >= MinBlockHeight
    ensures h >= DurationHours(a) * 120.0
    ensures h == MinBlockHeight || h == DurationHours(a) * 120.0
  {
    var px := DurationHours(a) * 120.0;
    if px > MinBlockHeight then px else MinBlockHeight
  }

  /** A block of `d` whole minutes is `max(2 d, 20)` pixels high. */
  lemma BlockHeightPerMinute(a: Appointment, d: int)
    requires a.end - a.start == d * MinuteMs
    ensures BlockHeight(a) == (if 2 * d > 20 then 2 * d else 20) as real
  {
    assert DurationHours(a) * 120.0 == (2 * d) as real;
  }

  /** A block lasting `k` slots is exactly `k` rows high, so it ends on the row where the appointment ends. */
  lemma BlockSpansRows(a: Appointment, k: int)
    requires k >= 1 && a.end - a.start == k * SlotLength * MinuteMs
    ensures BlockHeight(a) == (k * CellHeight) as real
  {
    BlockHeightPerMinute(a, k * SlotLength);
  }

  /** `getAppointmentTop`: the start's offset from the row's minute, at 120 px per hour. */
  function BlockTop(a: Appointment, s: TimeSlot): (top: real)
    ensures StartMinutes(a) == SlotMinutes(s) ==> top == 0.0
    ensures InSlot(StartMinutes(a), s) ==> 0.0 <= top < CellHeight as real
  {
    var offsetMinutes := StartMinutes(a) - SlotMinutes(s);
    (offsetMinutes as real / 60.0) * 120.0
  }

  lemma BlockTopPerMinute(a: Appointment, s: TimeSlot)
    ensures BlockTop(a, s) == (2 * (StartMinutes(a) - SlotMinutes(s))) as real
  {
  }

  /** As written, every block that is drawn sits at the very top of its row. */
  lemma RenderedBlockAtRowTop(appts: seq<Appointment>, worker: string, s: TimeSlot, a: Appointment)
    requires a in RenderedBlocks(appts, worker, s)
    ensures BlockTop(a, s) == 0.0
  {
    RenderedExactly(appts, worker, s, a);
  }

  /** `CurrentTimeLine`: the pixel offset of the red line, if it is shown. */
  function NowLine(now: int, currentDate: int): (top: Option<int>)
    ensures top.Some? <==> IsSameDay(now, currentDate) && GridStart <= MinuteOfDay(now) <= GridEnd
    ensures top.Some? ==> HeaderHeight <= top.value <= HeaderHeight + CellHeight * SlotCount
  {
    if !IsSameDay(now, currentDate) then None
    else
      var currentMinutes := MinuteOfDay(now);
      if currentMinutes < 9 * 60 || currentMinutes > 22 * 60 then None
      else
        var offsetMinutes := currentMinutes - 9 * 60;
        Some(offsetMinutes * 2 + 49)
  }

  /**
   * The now line crosses the row that contains the current minute, at the
   * height where a block starting now would have its top edge.
   */
  lemma NowLineAlignsWithRows(now: int, currentDate: int)
    requires IsSameDay(now, currentDate) && GridStart <= MinuteOfDay(now) < GridEnd
    ensures var m := MinuteOfDay(now);
            var i := (m - GridStart) / SlotLength;
            0 <= i < SlotCount && InSlot(m, GridSlots()[i]) &&
            NowLine(now, currentDate) ==
              Some(HeaderHeight + CellHeight * i + 2 * (m - SlotMinutes(GridSlots()[i])))
  {
    var m := MinuteOfDay(now);
    SlotsTileWindow(m);
    GridSlotAt((m - GridStart) / SlotLength);
  }

  // ---------------------------------------------------------------------------
  // Drag and drop
  // ---------------------------------------------------------------------------

  /**
   * The record `handleDropAppointment` builds: the target cell's day at the
   * slot's time, the same duration, the target column's worker.
   */
  function DroppedAppointment(appt: Appointment, newDate: int, s: TimeSlot, newWorker: string): (r: Appointment)
    ensures r.start % MinuteMs == 0
    ensures 0 <= SlotMinutes(s) < 1440 ==>
              IsSameDay(r.start, newDate) && StartMinutes(r) == SlotMinutes(s)
    ensures r.end - r.start == appt.end - appt.start
    ensures r.customer == newWorker
    ensures r.(start := appt.start, end := appt.end, customer := appt.customer) == appt
  {
    var newStart := AtTime(newDate, s.hour, s.minute);
    var duration := appt.end - appt.start;
    appt.(start := newStart, end := newStart + duration, customer := newWorker)
  }

  /**
   * An appointment of at least a minute dropped on a grid row, and still
   * ending that day, is drawn by that row in the target worker's column once
   * the day is reloaded with it.
   */
  lemma DroppedIsRenderedAtTarget(appts: seq<Appointment>, appt: Appointment, newDate: int,
                                  i: int, newWorker: string)
    requires 0 <= i < SlotCount
    requires MinuteMs <= appt.end - appt.start
    requires SlotMinutes(GridSlots()[i]) * MinuteMs + (appt.end - appt.start) < DayMs
    requires DroppedAppointment(appt, newDate, GridSlots()[i], newWorker) in appts
    ensures DroppedAppointment(appt, newDate, GridSlots()[i], newWorker)
              in RenderedBlocks(appts, newWorker, GridSlots()[i])
  {
    var s := GridSlots()[i];
    var r := DroppedAppointment(appt, newDate, s, newWorker);
    GridSlotAt(i);
    var m := SlotMinutes(s);
    var day := Day(newDate);
    assert r.start == day * DayMs + m * MinuteMs;
    var e := MinuteOfDay(r.end);
    assert Day(r.end) == day by {
      assert day * DayMs <= r.end < (day + 1) * DayMs;
    }
    assert e > m by {
      assert r.end >= day * DayMs + (m + 1) * MinuteMs;
    }
    RenderedExactly(appts, newWorker, s, r);
  }

  /** `handleDropAppointment` sends the moved record through `updateAppointment`. */
  function DropRequest(appt: Appointment, newDate: int, s: TimeSlot, newWorker: string): (r: Result<Request, Failure>)
    ensures r.Failure? <==> !HasId(appt)
    ensures r.Failure? ==> r.error == IdRequiredForUpdate
    ensures r.Success? ==> r.value == Put(DroppedAppointment(appt, newDate, s, newWorker))
    ensures r.Success? ==> r.value.Put? && r.value.record.id == appt.id &&
                           r.value.record.customer == newWorker &&
                           r.value.record.end - r.value.record.start == appt.end - appt.start
  {
    UpdateRequest(DroppedAppointment(appt, newDate, s, newWorker))
  }

  // ---------------------------------------------------------------------------
  // Status context menu
  // ---------------------------------------------------------------------------

  /** The buttons of `ContextMenu`, top to bottom: Check In, Check Out, Mark as Booked. */
  function MenuOptions(current: Status): (options: seq<Status>)
    ensures current !in options
    ensures CheckedIn in options <==> current != CheckedIn
    ensures Finished in options <==> current == CheckedIn
    ensures Booked in options <==> current != Booked
    ensures forall i, j :: 0 <= i < j < |options| ==> options[i] != options[j]
  {
    (if current != CheckedIn then [CheckedIn] else []) +
    (if current == CheckedIn then [Finished] else []) +
    (if current != Booked then [Booked] else [])
  }

  /**
   * Every status can be reached from every other in at most two menu
   * choices; "finished" needs two from "booked", going through "checked-in".
   */
  lemma MenuReachesEveryStatus(from: Status, to: Status)
    ensures to == from || to in MenuOptions(from) ||
            exists via :: via in MenuOptions(from) && to in MenuOptions(via)
    ensures (to in MenuOptions(from)) <==> (to != from && !(from == Booked && to == Finished))
  {
    if from == Booked && to == Finished {
      assert CheckedIn in MenuOptions(from) && to in MenuOptions(CheckedIn);
    }
  }

  /** `{ ...appointment, status }`: only the status changes. */
  function StatusChanged(a: Appointment, status: Status): (r: Appointment)
    ensures r.status == status
    ensures r.(status := a.status) == a
  {
    a.(status := status)
  }

  /** `handleStatusChange` sends the changed record through `updateAppointment`. */
  function StatusChangeRequest(a: Appointment, status: Status): (r: Result<Request, Failure>)
    ensures r.Failure? <==> !HasId(a)
    ensures r.Success? ==> r.value == Put(a.(status := status))
  {
    UpdateRequest(StatusChanged(a, status))
  }

  // ---------------------------------------------------------------------------
  // Forms
  // ---------------------------------------------------------------------------

  /**
   * The fields of the add, quick-add and edit forms. Date and times stay
   * text here; the instants built from them are passed in separately.
   */
  datatype Form = Form(
    massageType: string,
    customer: string,
    phone: string,
    date: string,
    start: string,
    end: string,
    notes: string,
    preference: Preference,
    specificWorker: string
  )

  predicate FieldsFilled(f: Form) {
    f.massageType != "" && f.customer != "" && f.phone != "" &&
    f.date != "" && f.start != "" && f.end != ""
  }

  /** The two checks every form makes before saving, in order. */
  function FormCheck(f: Form): (r: Option<Failure>)
    ensures r == Some(MissingFields) <==> !FieldsFilled(f)
    ensures r == Some(MissingSpecificWorker) <==>
              FieldsFilled(f) && f.preference == Specific && f.specificWorker == ""
    ensures r.None? <==> FieldsFilled(f) && (f.preference == Specific ==> f.specificWorker != "")
  {
    if !FieldsFilled(f) then Some(MissingFields)
    else if f.preference == Specific && f.specificWorker == "" then Some(MissingSpecificWorker)
    else None
  }

  /** A stored record as the forms produce it: required text present, a specific worker exactly when asked for. */
  predicate WellFormed(a: Appointment) {
    a.massageType != "" && a.customer != "" && a.phone != "" &&
    (a.specificWorker.Some? <==> a.preference == Specific) &&
    (a.specificWorker.Some? ==> a.specificWorker.value != "")
  }

  /**
   * The record the add form (`handleAddAppointment`) and the quick-add form
   * (`QuickAddModal.handleSave`) build, from the form and the decoded start
   * and end instants.
   */
  function NewAppointment(f: Form, startAt: int, endAt: int): (r: Result<Appointment, Failure>)
    ensures r.Failure? <==> FormCheck(f).Some?
    ensures r.Failure? ==> r.error == FormCheck(f).value
    ensures r.Success? ==>
              var a := r.value;
              WellFormed(a) && a.id == None && a.status == Booked &&
              a.massageType == f.massageType && a.customer == f.customer && a.phone == f.phone &&
              a.start == startAt && a.end == endAt &&
              a.notes == Some(f.notes) && a.preference == f.preference &&
              (a.specificWorker.Some? ==> a.specificWorker.value == f.specificWorker)
  {
    match FormCheck(f)
    case Some(e) => Failure(e)
    case None =>
      Success(Appointment(
        None, f.phone, f.massageType, f.customer, startAt, endAt, Booked, Some(f.notes),
        f.preference, if f.preference == Specific then Some(f.specificWorker) else None))
  }

  /**
   * `AppointmentModal.handleSave`: the record being edited with the form's
   * fields written over it; id and status are kept.
   */
  function EditedAppointment(a: Appointment, f: Form, startAt: int, endAt: int): (r: Result<Appointment, Failure>)
    ensures r.Failure? <==> FormCheck(f).Some?
    ensures r.Failure? ==> r.error == FormCheck(f).value
    ensures r.Success? ==>
              var e := r.value;
              WellFormed(e) && e.id == a.id && e.status == a.status &&
              e.massageType == f.massageType && e.customer == f.customer && e.phone == f.phone &&
              e.start == startAt && e.end == endAt &&
              e.notes == Some(f.notes) && e.preference == f.preference &&
              (e.specificWorker.Some? ==> e.specificWorker.value == f.specificWorker)
  {
    match FormCheck(f)
    case Some(e) => Failure(e)
    case None =>
      Success(a.(massageType := f.massageType, customer := f.customer, phone := f.phone,
                 start := startAt, end := endAt, notes := Some(f.notes),
                 preference := f.preference,
                 specificWorker := if f.preference == Specific then Some(f.specificWorker) else None))
  }

  /** Dragging and changing the status keep a record well formed. */
  lemma WellFormedPreserved(a: Appointment, newDate: int, s: TimeSlot, newWorker: string, status: Status)
    requires WellFormed(a) && newWorker != ""
    ensures WellFormed(DroppedAppointment(a, newDate, s, newWorker))
    ensures WellFormed(StatusChanged(a, status))
  {
  }

  // ---------------------------------------------------------------------------
  // The page state and its handlers
  // ---------------------------------------------------------------------------

  /**
   * The state of `DashboardPage` that the handlers change: the loaded
   * appointments, the column order and the displayed day. The server's
   * answers (whether it accepted a request, and what reloading the day
   * returned) are parameters of the handlers.
   */
  class Board {
    var appointments: seq<Appointment>
    var workers: seq<string>
    var currentDate: int

    constructor (today: int)
      ensures appointments == [] && currentDate == today
      ensures workers == ["Alice", "Bob", "Carol", "Dave", "Eve"]
    {
      appointments := [];
      workers := ["Alice", "Bob", "Carol", "Dave", "Eve"];
      currentDate := today;
    }

    /**
     * The common tail of the handlers that write through the API: send the
     * request unless it was refused beforehand, then reload the day.
     * `fetchAppointments` yields an empty list when the reload fails.
     */
    method Submit(request: Result<Request, Failure>, accepted: bool, fetched: Option<seq<Appointment>>)
      returns (sent: Option<Request>, error: Option<Failure>)
      modifies this
      ensures sent == if request.Success? then Some(request.value) else None
      ensures error == if request.Failure? then Some(request.error)
                       else if !accepted then Some(RequestFailed) else None
      ensures appointments == if error.None? then fetched.GetOr([]) else old(appointments)
      ensures workers == old(workers) && currentDate == old(currentDate)
    {
      match request
      case Failure(e) =>
        sent, error := None, Some(e);
      case Success(req) =>
        sent := Some(req);
        if !accepted {
          error := Some(RequestFailed);
        } else {
          error := None;
          appointments := fetched.GetOr([]);
        }
    }

    /** `handleAddAppointment`: check the form, then create the record and reload. */
    method AddAppointment(f: Form, startAt: int, endAt: int, accepted: bool, fetched: Option<seq<Appointment>>)
      returns (sent: Option<Request>, error: Option<Failure>)
      modifies this
      ensures FormCheck(f).Some? ==> sent.None? && error == FormCheck(f) && appointments == old(appointments)
      ensures FormCheck(f).None? ==>
                sent == Some(Post(NewAppointment(f, startAt, endAt).value)) &&
                (error.None? <==> accepted) &&
                appointments == if accepted then fetched.GetOr([]) else old(appointments)
      ensures workers == old(workers) && currentDate == old(currentDate)
    {
      var created := NewAppointment(f, startAt, endAt);
      match created
      case Failure(e) =>
        sent, error := None, Some(e);
      case Success(rec) =>
        sent, error := Submit(Success(Post(rec)), accepted, fetched);
    }

    /** `handleQuickAddSave`: create the record the quick-add form built, then reload. */
    method QuickAddSave(data: Appointment, accepted: bool, fetched: Option<seq<Appointment>>)
      returns (sent: Option<Request>, error: Option<Failure>)
      modifies this
      ensures sent == Some(Post(data))
      ensures error.None? <==> accepted
      ensures appointments == if accepted then fetched.GetOr([]) else old(appointments)
      ensures workers == old(workers) && currentDate == old(currentDate)
    {
      sent, error := Submit(Success(Post(data)), accepted, fetched);
    }

    /** `handleDropAppointment`: update the moved record, then reload. */
    method DropAppointment(appt: Appointment, newDate: int, s: TimeSlot, newWorker: string,
                           accepted: bool, fetched: Option<seq<Appointment>>)
      returns (sent: Option<Request>, error: Option<Failure>)
      modifies this
      ensures !HasId(appt) ==> sent.None? && error == Some(IdRequiredForUpdate) &&
                               appointments == old(appointments)
      ensures HasId(appt) ==> sent == Some(Put(DroppedAppointment(appt, newDate, s, newWorker))) &&
                              appointments == if accepted then fetched.GetOr([]) else old(appointments)
      ensures workers == old(workers) && currentDate == old(currentDate)
    {
      sent, error := Submit(DropRequest(appt, newDate, s, newWorker), accepted, fetched);
    }

    /** `handleStatusChange`: update the record with the chosen status, then reload. */
    method StatusChange(appt: Appointment, status: Status, accepted: bool, fetched: Option<seq<Appointment>>)
      returns (sent: Option<Request>, error: Option<Failure>)
      modifies this
      ensures !HasId(appt) ==> sent.None? && error == Some(IdRequiredForUpdate) &&
                               appointments == old(appointments)
      ensures HasId(appt) ==> sent == Some(Put(appt.(status := status))) &&
                              appointments == if accepted then fetched.GetOr([]) else old(appointments)
      ensures workers == old(workers) && currentDate == old(currentDate)
    {
      sent, error := Submit(StatusChangeRequest(appt, status), accepted, fetched);
    }

    /** `handleAppointmentSave`: update the edited record, then reload. */
    method AppointmentSave(updated: Appointment, accepted: bool, fetched: Option<seq<Appointment>>)
      returns (sent: Option<Request>, error: Option<Failure>)
      modifies this
      ensures !HasId(updated) ==> sent.None? && error == Some(IdRequiredForUpdate) &&
                                  appointments == old(appointments)
      ensures HasId(updated) ==> sent == Some(Put(updated)) &&
                                 appointments == if accepted then fetched.GetOr([]) else old(appointments)
      ensures workers == old(workers) && currentDate == old(currentDate)
    {
      sent, error := Submit(UpdateRequest(updated), accepted, fetched);
    }

    /** `handleAppointmentDelete`: delete on the server, then drop the id from local state. */
    method AppointmentDelete(appt: Appointment, accepted: bool)
      returns (sent: Option<Request>, error: Option<Failure>)
      modifies this
      ensures !HasId(appt) ==> sent.None? && error == Some(IdRequiredForDeletion)
      ensures HasId(appt) ==> sent == Some(Delete(appt.id.value)) && (error.None? <==> accepted)
      ensures appointments == if error.None? then WithoutId(old(appointments), appt.id)
                              else old(appointments)
      ensures workers == old(workers) && currentDate == old(currentDate)
    {
      match DeleteRequest(appt)
      case Failure(e) =>
        sent, error := None, Some(e);
      case Success(req) =>
        sent := Some(req);
        if accepted {
          error := None;
          appointments := WithoutId(appointments, appt.id);
        } else {
          error := Some(RequestFailed);
        }
    }

    /** `handleReorderWorker`: move one column. */
    method ReorderWorker(fromIndex: int, toIndex: int)
      requires 0 <= fromIndex < |workers| && 0 <= toIndex < |workers|
      modifies this
      ensures workers == Moved(old(workers), fromIndex, toIndex)
      ensures appointments == old(appointments) && currentDate == old(currentDate)
    {
      workers := ReorderWorkers(workers, fromIndex, toIndex);
    }
  }
}
