/**
 * The earlier revision of the scheduling board (`app/page.tsx`): the
 * appointments live only in the page's state, starting from three mock
 * records, and every handler rewrites that list directly.
 */
module InMemoryBoard {
  import opened Wrappers
  import opened Clock
  import opened Grid
  import opened Seqs
  import opened Workers

  /** The record of this revision: an id, but no status, notes or preference. */
  datatype Appointment = Appointment(
    id: string,
    massageType: string,
    phone: string,
    start: int,
    end: int,
    customer: string      // the assigned worker
  )

  /** `Omit<Appointment, "id">`: what the quick-add form hands over. */
  datatype Draft = Draft(massageType: string, phone: string, start: int, end: int, customer: string)

  /** `{ ...appointmentData, id }`. */
  function WithId(d: Draft, id: string): (a: Appointment)
    ensures a.id == id && DraftOf(a) == d
  {
    Appointment(id, d.massageType, d.phone, d.start, d.end, d.customer)
  }

  function DraftOf(a: Appointment): Draft {
    Draft(a.massageType, a.phone, a.start, a.end, a.customer)
  }

  /** The ids of the list, position by position. */
  function Ids(appts: seq<Appointment>): (ids: seq<string>)
    ensures |ids| == |appts|
  {
    seq(|appts|, i requires 0 <= i < |appts| => appts[i].id)
  }

  /** No two records share an id. `Date.now()` ids do not guarantee this; the lemmas say which handlers keep it. */
  predicate UniqueIds(appts: seq<Appointment>) {
    forall i, j :: 0 <= i < j < |appts| ==> appts[i].id != appts[j].id
  }

  /** `new Date(2025, 5, 12, hour, minute)`. */
  function June12(hour: int, minute: int): int {
    AtTime(20251 * DayMs, hour, minute)
  }

  /** `mockAppointments`, the initial list. */
  function MockAppointments(): (appts: seq<Appointment>)
    ensures |appts| == 3 && UniqueIds(appts)
  {
    [ Appointment("1", "Swedish Massage", "123-456-7890", June12(10, 0), June12(11, 30), "Alice"),
      Appointment("2", "Deep Tissue Massage", "123-456-7890", June12(12, 0), June12(14, 0), "Bob"),
      Appointment("3", "Hot Stone Massage", "123-456-7890", June12(9, 30), June12(10, 30), "Carol") ]
  }

  // ---------------------------------------------------------------------------
  // Forms
  // ---------------------------------------------------------------------------

  /** The six text fields of the add, quick-add and edit forms. */
  datatype Form = Form(massageType: string, customer: string, phone: string,
                       date: string, start: string, end: string)

  predicate FieldsFilled(f: Form) {
    f.massageType != "" && f.customer != "" && f.phone != "" &&
    f.date != "" && f.start != "" && f.end != ""
  }

  /**
   * `QuickAddModal.handleSave`: nothing when a field is empty, otherwise the
   * record without id, built from the fields and the decoded instants.
   */
  function DraftFromForm(f: Form, startAt: int, endAt: int): (d: Option<Draft>)
    ensures d.Some? <==> FieldsFilled(f)
    ensures d.Some? ==> d.value == Draft(f.massageType, f.phone, startAt, endAt, f.customer)
  {
    if !FieldsFilled(f) then None
    else Some(Draft(f.massageType, f.phone, startAt, endAt, f.customer))
  }

  /** `AppointmentModal.handleSave`: the edited record keeps its id. */
  function EditedAppointment(a: Appointment, f: Form, startAt: int, endAt: int): (r: Option<Appointment>)
    ensures r.Some? <==> FieldsFilled(f)
    ensures r.Some? ==> r.value.id == a.id &&
                        DraftOf(r.value) == Draft(f.massageType, f.phone, startAt, endAt, f.customer)
  {
    if !FieldsFilled(f) then None
    else Some(a.(massageType := f.massageType, customer := f.customer, phone := f.phone,
                 start := startAt, end := endAt))
  }

  // ---------------------------------------------------------------------------
  // List operations of the handlers
  // ---------------------------------------------------------------------------

  /** `handleQuickAddSave`: `[...appointments, { ...appointmentData, id }]`. */
  function QuickAdded(appts: seq<Appointment>, d: Draft, freshId: string): (r: seq<Appointment>)
    ensures |r| == |appts| + 1
    ensures r[..|appts|] == appts
    ensures r[|appts|].id == freshId && DraftOf(r[|appts|]) == d
  {
    appts + [WithId(d, freshId)]
  }

  /** `handleAddAppointment`: an empty field leaves the list alone, otherwise one record is appended. */
  function Added(appts: seq<Appointment>, f: Form, startAt: int, endAt: int, freshId: string)
    : (r: seq<Appointment>)
    ensures !FieldsFilled(f) ==> r == appts
    ensures FieldsFilled(f) ==>
              |r| == |appts| + 1 && r[..|appts|] == appts && r[|appts|].id == freshId &&
              DraftOf(r[|appts|]) == Draft(f.massageType, f.phone, startAt, endAt, f.customer)
  {
    match DraftFromForm(f, startAt, endAt)
    case None => appts
    case Some(d) => QuickAdded(appts, d, freshId)
  }

  /** `handleAppointmentSave`: every record with the updated record's id is replaced by it. */
  function Saved(appts: seq<Appointment>, updated: Appointment): (r: seq<Appointment>)
    ensures |r| == |appts|
    ensures forall i :: 0 <= i < |appts| && appts[i].id != updated.id ==> r[i] == appts[i]
    ensures forall i :: 0 <= i < |appts| && appts[i].id == updated.id ==> r[i] == updated
  {
    seq(|appts|, i requires 0 <= i < |appts| => if appts[i].id == updated.id then updated else appts[i])
  }

  /** `handleAppointmentDelete`: the records whose id differs, in order. */
  function Deleted(appts: seq<Appointment>, id: string): (r: seq<Appointment>)
    ensures forall a :: a in r <==> a in appts && a.id != id
    ensures |r| <= |appts|
  {
    Filter((a: Appointment) => a.id != id, appts)
  }

  /** The copy `handleDropAppointment` writes: the dragged snapshot, moved to the target cell. */
  function DroppedCopy(appt: Appointment, newDate: int, s: TimeSlot, newWorker: string): (r: Appointment)
    ensures r.start % MinuteMs == 0
    ensures 0 <= SlotMinutes(s) < 1440 ==>
              IsSameDay(r.start, newDate) && MinuteOfDay(r.start) == SlotMinutes(s)
    ensures r.end - r.start == appt.end - appt.start
    ensures r.customer == newWorker
    ensures r.(start := appt.start, end := appt.end, customer := appt.customer) == appt
  {
    var newStart := AtTime(newDate, s.hour, s.minute);
    var duration := appt.end - appt.start;
    appt.(start := newStart, end := newStart + duration, customer := newWorker)
  }

  /** `handleDropAppointment`: each record with the dragged id becomes the moved snapshot. */
  function Dropped(appts: seq<Appointment>, appt: Appointment, newDate: int, s: TimeSlot, newWorker: string)
    : (r: seq<Appointment>)
    ensures |r| == |appts|
    ensures forall i :: 0 <= i < |appts| && appts[i].id != appt.id ==> r[i] == appts[i]
  {
    seq(|appts|, i requires 0 <= i < |appts| =>
          if appts[i].id == appt.id then DroppedCopy(appt, newDate, s, newWorker) else appts[i])
  }

  /**
   * Dropping is saving the moved snapshot: only records with the dragged id
   * change, each into the snapshot with the new start, the old duration and
   * the new worker.
   */
  lemma DroppedIsSavedCopy(appts: seq<Appointment>, appt: Appointment, newDate: int, s: TimeSlot,
                           newWorker: string)
    ensures Dropped(appts, appt, newDate, s, newWorker) ==
            Saved(appts, DroppedCopy(appt, newDate, s, newWorker))
    ensures forall i :: 0 <= i < |appts| && appts[i].id == appt.id ==>
              var r := Dropped(appts, appt, newDate, s, newWorker)[i];
              r.end - r.start == appt.end - appt.start && r.customer == newWorker &&
              r.massageType == appt.massageType && r.phone == appt.phone
  {
  }

  // ---------------------------------------------------------------------------
  // Properties of the list operations
  // ---------------------------------------------------------------------------

  /** Saving changes no id, and a second save of the same record changes nothing more. */
  lemma SavedIdsAndIdempotent(appts: seq<Appointment>, updated: Appointment)
    ensures Ids(Saved(appts, updated)) == Ids(appts)
    ensures Saved(Saved(appts, updated), updated) == Saved(appts, updated)
    ensures updated.id !in Ids(appts) ==> Saved(appts, updated) == appts
  {
    if updated.id !in Ids(appts) {
      forall i | 0 <= i < |appts| ensures appts[i].id != updated.id {
        assert Ids(appts)[i] == appts[i].id;
      }
    }
  }

  /** Deleting removes every record with the id and keeps all others in order; an absent id changes nothing; deleting is idempotent. */
  lemma DeletedExact(a1: seq<Appointment>, a2: seq<Appointment>, id: string, x: Appointment)
    ensures multiset(Deleted(a1, id))[x] == if x.id != id then multiset(a1)[x] else 0
    ensures Deleted(a1 + a2, id) == Deleted(a1, id) + Deleted(a2, id)
    ensures Deleted(Deleted(a1, id), id) == Deleted(a1, id)
    ensures id !in Ids(a1) ==> Deleted(a1, id) == a1
  {
    FilterCount((a: Appointment) => a.id != id, a1, x);
    FilterConcat((a: Appointment) => a.id != id, a1, a2);
    FilterIdempotent((a: Appointment) => a.id != id, a1);
    if id !in Ids(a1) {
      forall a | a in a1 ensures a.id != id {
        var i :| 0 <= i < |a1| && a1[i] == a;
        assert Ids(a1)[i] == a.id;
      }
      FilterKeepsAll((a: Appointment) => a.id != id, a1);
    }
  }

  /** Quick-adding under an unused id and then deleting that id gives back the list. */
  lemma QuickAddedThenDeleted(appts: seq<Appointment>, d: Draft, freshId: string)
    requires freshId !in Ids(appts)
    ensures Deleted(QuickAdded(appts, d, freshId), freshId) == appts
  {
    DeletedExact(appts, [WithId(d, freshId)], freshId, WithId(d, freshId));
    assert Deleted([WithId(d, freshId)], freshId) == [];
  }

  /** Saving a record and then deleting its id is the same as deleting the id. */
  lemma {:induction false} SavedThenDeleted(appts: seq<Appointment>, updated: Appointment)
    ensures Deleted(Saved(appts, updated), updated.id) == Deleted(appts, updated.id)
  {
    if appts != [] {
      var head, tail := appts[..1], appts[1..];
      assert appts == head + tail;
      assert Saved(appts, updated) == Saved(head, updated) + Saved(tail, updated);
      DeletedExact(Saved(head, updated), Saved(tail, updated), updated.id, updated);
      DeletedExact(head, tail, updated.id, updated);
      SavedThenDeleted(tail, updated);
    }
  }

  /** Ids of a list headed by `x` are unique iff the tail's are and none of them is `x`'s. */
  lemma UniqueCons(x: Appointment, rest: seq<Appointment>)
    ensures UniqueIds([x] + rest) <==> UniqueIds(rest) && forall a :: a in rest ==> a.id != x.id
  {
    var l := [x] + rest;
    if UniqueIds(l) {
      forall i, j | 0 <= i < j < |rest| ensures rest[i].id != rest[j].id {
        assert rest[i] == l[i + 1] && rest[j] == l[j + 1];
      }
      forall a | a in rest ensures a.id != x.id {
        var k :| 0 <= k < |rest| && rest[k] == a;
        assert l[k + 1] == a;
      }
    }
    if UniqueIds(rest) && forall a :: a in rest ==> a.id != x.id {
      forall i, j | 0 <= i < j < |l| ensures l[i].id != l[j].id {
        assert l[0] == x;
        assert l[j] == rest[j - 1] && l[j] in rest;
        if i > 0 {
          assert l[i] == rest[i - 1];
        }
      }
    }
  }

  /** Removing records keeps ids unique. */
  lemma {:induction false} DeletedKeepsUnique(appts: seq<Appointment>, id: string)
    requires UniqueIds(appts)
    ensures UniqueIds(Deleted(appts, id))
  {
    if appts != [] {
      var tail := appts[1..];
      assert appts == [appts[0]] + tail;
      UniqueCons(appts[0], tail);
      DeletedKeepsUnique(tail, id);
      var rest := Deleted(tail, id);
      if appts[0].id != id {
        assert Deleted(appts, id) == [appts[0]] + rest;
        UniqueCons(appts[0], rest);
      } else {
        assert Deleted(appts, id) == rest;
      }
    }
  }

  /** Saving keeps ids unique, since it changes no id. */
  lemma SavedKeepsUnique(appts: seq<Appointment>, updated: Appointment)
    requires UniqueIds(appts)
    ensures UniqueIds(Saved(appts, updated))
  {
    var saved := Saved(appts, updated);
    forall i, j | 0 <= i < j < |saved| ensures saved[i].id != saved[j].id {
      assert saved[i].id == appts[i].id && saved[j].id == appts[j].id;
    }
  }

  /** Quick-adding keeps ids unique exactly when the fresh id is unused. */
  lemma QuickAddedUniqueIff(appts: seq<Appointment>, d: Draft, freshId: string)
    requires UniqueIds(appts)
    ensures UniqueIds(QuickAdded(appts, d, freshId)) <==> freshId !in Ids(appts)
  {
    var added := QuickAdded(appts, d, freshId);
    if freshId in Ids(appts) {
      var i :| 0 <= i < |appts| && Ids(appts)[i] == freshId;
      assert added[i].id == added[|appts|].id;
    } else {
      forall i, j | 0 <= i < j < |added| ensures added[i].id != added[j].id {
        if j == |appts| {
          assert Ids(appts)[i] == appts[i].id;
        } else {
          assert added[i] == appts[i] && added[j] == appts[j];
        }
      }
    }
  }

  /**
   * Saving, dropping and deleting keep ids unique; quick-adding keeps them
   * unique exactly when the fresh id is unused.
   */
  lemma HandlersKeepUniqueIds(appts: seq<Appointment>, updated: Appointment, d: Draft, freshId: string,
                              appt: Appointment, newDate: int, s: TimeSlot, newWorker: string)
    requires UniqueIds(appts)
    ensures UniqueIds(Saved(appts, updated))
    ensures UniqueIds(Dropped(appts, appt, newDate, s, newWorker))
    ensures UniqueIds(Deleted(appts, freshId))
    ensures UniqueIds(QuickAdded(appts, d, freshId)) <==> freshId !in Ids(appts)
  {
    SavedKeepsUnique(appts, updated);
    DroppedIsSavedCopy(appts, appt, newDate, s, newWorker);
    SavedKeepsUnique(appts, DroppedCopy(appt, newDate, s, newWorker));
    DeletedKeepsUnique(appts, freshId);
    QuickAddedUniqueIff(appts, d, freshId);
  }

  // ---------------------------------------------------------------------------
  // Cells and geometry
  // ---------------------------------------------------------------------------

  /** The test of this revision's `getAppointmentsForCell`: same worker, the displayed day, overlapping minutes. */
  predicate InCell(a: Appointment, currentDate: int, worker: string, s: TimeSlot) {
    a.customer == worker && IsSameDay(a.start, currentDate) &&
    Overlaps(MinuteOfDay(a.start), MinuteOfDay(a.end), s)
  }

  function CellAppointments(appts: seq<Appointment>, currentDate: int, worker: string, s: TimeSlot)
    : (r: seq<Appointment>)
    ensures forall a :: a in r <==>
              a in appts && a.customer == worker && IsSameDay(a.start, currentDate) &&
              MinuteOfDay(a.start) < SlotMinutes(s) + SlotLength && MinuteOfDay(a.end) > SlotMinutes(s)
    ensures multiset(r) <= multiset(appts)
  {
    Filter((a: Appointment) => InCell(a, currentDate, worker, s), appts)
  }

  /** A cell lists its appointments in list order. */
  lemma CellKeepsOrder(a1: seq<Appointment>, a2: seq<Appointment>, currentDate: int, worker: string, s: TimeSlot)
    ensures CellAppointments(a1 + a2, currentDate, worker, s) ==
            CellAppointments(a1, currentDate, worker, s) + CellAppointments(a2, currentDate, worker, s)
  {
    FilterConcat((a: Appointment) => InCell(a, currentDate, worker, s), a1, a2);
  }

  /** The blocks a cell draws: only where the slot's minute equals the start minute. */
  function RenderedBlocks(appts: seq<Appointment>, currentDate: int, worker: string, s: TimeSlot)
    : (r: seq<Appointment>)
    ensures forall a :: a in r ==>
              a in appts && a.customer == worker && IsSameDay(a.start, currentDate) &&
              MinuteOfDay(a.start) == SlotMinutes(s)
    ensures multiset(r) <= multiset(appts)
  {
    Filter((a: Appointment) => MinuteOfDay(a.start) == SlotMinutes(s),
           CellAppointments(appts, currentDate, worker, s))
  }

  /** Within one worker's column of the displayed day, at most one row draws a given appointment. */
  lemma RenderedAtMostOnce(appts: seq<Appointment>, currentDate: int, worker: string, a: Appointment,
                           i: int, j: int)
    requires 0 <= i < SlotCount && 0 <= j < SlotCount
    requires a in RenderedBlocks(appts, currentDate, worker, GridSlots()[i])
    requires a in RenderedBlocks(appts, currentDate, worker, GridSlots()[j])
    ensures i == j
    ensures IsSameDay(a.start, currentDate)
  {
    GridSlotAt(i);
    GridSlotAt(j);
  }

  /** Height of one row, `height: "20px"` on every cell. */
  const CellHeight: int := 20

  /** `getAppointmentHeight`: 80 px per hour, never below 20 px. */
  function BlockHeight(a: Appointment): (h: real)
    ensures h >= 20.0
    ensures h >= (a.end - a.start) as real / 3_600_000.0 * 80.0
    ensures h == 20.0 || h == (a.end - a.start) as real / 3_600_000.0 * 80.0
  {
    var duration := (a.end - a.start) as real / 3_600_000.0;
    var px := duration * 80.0;
    if px > 20.0 then px else 20.0
  }

  /** A block of `d` whole minutes: `3 h == max(4 d, 60)`, i.e. 4/3 px per minute. */
  lemma BlockHeightPerMinute(a: Appointment, d: int)
    requires a.end - a.start == d * MinuteMs
    ensures 3.0 * BlockHeight(a) == (if 4 * d > 60 then 4 * d else 60) as real
  {
    assert (a.end - a.start) as real / 3_600_000.0 * 80.0 * 3.0 == (4 * d) as real;
  }

  /** A block lasting `k` slots is exactly `k` rows high. */
  lemma BlockSpansRows(a: Appointment, k: int)
    requires k >= 1 && a.end - a.start == k * SlotLength * MinuteMs
    ensures BlockHeight(a) == (k * CellHeight) as real
  {
    BlockHeightPerMinute(a, k * SlotLength);
  }

  /** `getAppointmentTop`: the start's offset from the row's minute, at 80 px per hour. */
  function BlockTop(a: Appointment, s: TimeSlot): (top: real)
    ensures MinuteOfDay(a.start) == SlotMinutes(s) ==> top == 0.0
    ensures InSlot(MinuteOfDay(a.start), s) ==> 0.0 <= top < CellHeight as real
  {
    var offsetMinutes := MinuteOfDay(a.start) - SlotMinutes(s);
    (offsetMinutes as real / 60.0) * 80.0
  }

  lemma BlockTopPerMinute(a: Appointment, s: TimeSlot)
    ensures 3.0 * BlockTop(a, s) == (4 * (MinuteOfDay(a.start) - SlotMinutes(s))) as real
  {
  }

  // ---------------------------------------------------------------------------
  // The page state and its handlers
  // ---------------------------------------------------------------------------

  /**
   * The state of `DashboardPage` in this revision: the appointment list,
   * the column order and the displayed day. Fresh ids (`Date.now()`) are
   * parameters.
   */
  class Board {
    var appointments: seq<Appointment>
    var workers: seq<string>
    var currentDate: int

    constructor (today: int)
      ensures appointments == MockAppointments() && UniqueIds(appointments)
      ensures workers == ["Alice", "Bob", "Carol", "Dave", "Eve"] && currentDate == today
    {
      appointments := MockAppointments();
      workers := ["Alice", "Bob", "Carol", "Dave", "Eve"];
      currentDate := today;
    }

    /** `handleAddAppointment`: append the form's record unless a field is empty. */
    method AddAppointment(f: Form, startAt: int, endAt: int, freshId: string)
      modifies this
      ensures appointments == Added(old(appointments), f, startAt, endAt, freshId)
      ensures workers == old(workers) && currentDate == old(currentDate)
    {
      if !FieldsFilled(f) {
        return;
      }
      var d := Draft(f.massageType, f.phone, startAt, endAt, f.customer);
      appointments := appointments + [WithId(d, freshId)];
    }

    /** `handleQuickAddSave`: append the quick-add form's record under a fresh id. */
    method QuickAddSave(d: Draft, freshId: string)
      modifies this
      ensures appointments == QuickAdded(old(appointments), d, freshId)
      ensures workers == old(workers) && currentDate == old(currentDate)
    {
      appointments := appointments + [WithId(d, freshId)];
    }

    /** `handleDropAppointment`. */
    method DropAppointment(appt: Appointment, newDate: int, s: TimeSlot, newWorker: string)
      modifies this
      ensures appointments == Dropped(old(appointments), appt, newDate, s, newWorker)
      ensures UniqueIds(old(appointments)) ==> UniqueIds(appointments)
      ensures workers == old(workers) && currentDate == old(currentDate)
    {
      if UniqueIds(appointments) {
        DroppedIsSavedCopy(appointments, appt, newDate, s, newWorker);
        SavedKeepsUnique(appointments, DroppedCopy(appt, newDate, s, newWorker));
      }
      appointments := Dropped(appointments, appt, newDate, s, newWorker);
    }

    /** `handleReorderWorker`: move one column. */
    method ReorderWorker(fromIndex: int, toIndex: int)
      requires 0 <= fromIndex < |workers| && 0 <= toIndex < |workers|
      modifies this
      ensures workers == Moved(old(workers), fromIndex, toIndex)
      ensures appointments == old(appointments) && currentDate == old(currentDate)
    {
      workers := ReorderWorkers(workers, fromIndex, toIndex);
    }

    /** `handleAppointmentSave`. */
    method AppointmentSave(updated: Appointment)
      modifies this
      ensures appointments == Saved(old(appointments), updated)
      ensures UniqueIds(old(appointments)) ==> UniqueIds(appointments)
      ensures workers == old(workers) && currentDate == old(currentDate)
    {
      if UniqueIds(appointments) {
        SavedKeepsUnique(appointments, updated);
      }
      appointments := Saved(appointments, updated);
    }

    /** `handleAppointmentDelete`. */
    method AppointmentDelete(id: string)
      modifies this
      ensures appointments == Deleted(old(appointments), id)
      ensures UniqueIds(old(appointments)) ==> UniqueIds(appointments)
      ensures workers == old(workers) && currentDate == old(currentDate)
    {
      if UniqueIds(appointments) {
        DeletedKeepsUnique(appointments, id);
      }
      appointments := Deleted(appointments, id);
    }
  }
}
