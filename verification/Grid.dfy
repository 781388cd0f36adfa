/**
 * The day grid shared by both revisions of the board: 15-minute slots from
 * 09:00 to 21:45, and the overlap test that attributes an appointment to a
 * slot.
 */
module Grid {

  /** `{ hour, minute }` of one row of the grid. */
  datatype TimeSlot = TimeSlot(hour: int, minute: int)

  /** `timeSlot.hour * 60 + timeSlot.minute`. */
  function SlotMinutes(s: TimeSlot): int {
    s.hour * 60 + s.minute
  }

  const SlotLength: int := 15
  const SlotCount: int := 52
  const GridStart: int := 9 * 60
  const GridEnd: int := 22 * 60

  /** The rows of the grid, by index: four quarter-hours for each hour 9..21. */
  function GridSlots(): (g: seq<TimeSlot>)
    ensures |g| == SlotCount
  {
    seq(52, i => TimeSlot(9 + i / 4, 15 * (i % 4)))
  }

  /**
   * The nested loops that push `{ hour, minute }` for every hour 9..21 and
   * every minute 0, 15, 30, 45.
   */
  method TimeSlots() returns (slots: seq<TimeSlot>)
    ensures |slots| == SlotCount
    ensures slots == GridSlots()
  {
    slots := [];
    var hour := 9;
    while hour <= 21
      invariant 9 <= hour <= 22
      invariant slots == GridSlots()[..4 * (hour - 9)]
    {
      var minute := 0;
      while minute < 60
        invariant 0 <= minute <= 60 && minute % 15 == 0
        invariant slots == GridSlots()[..4 * (hour - 9) + minute / 15]
      {
        SlotIndex(hour - 9, minute / 15);
        slots := slots + [TimeSlot(hour, minute)];
        minute := minute + 15;
      }
      hour := hour + 1;
    }
  }

  lemma SlotIndex(h: int, q: int)
    requires 0 <= h < 13 && 0 <= q < 4
    ensures GridSlots()[4 * h + q] == TimeSlot(9 + h, 15 * q)
  {
    assert (4 * h + q) / 4 == h;
    assert (4 * h + q) % 4 == q;
  }

  /** Row `i` starts `15 * i` minutes after 09:00, on a quarter hour between 9 and 21 o'clock. */
  lemma GridSlotAt(i: int)
    requires 0 <= i < SlotCount
    ensures SlotMinutes(GridSlots()[i]) == GridStart + SlotLength * i
    ensures 9 <= GridSlots()[i].hour <= 21
    ensures GridSlots()[i].minute in {0, 15, 30, 45}
  {
    var h, q := i / 4, i % 4;
    assert i == 4 * h + q;
    SlotIndex(h, q);
  }

  /** The rows are strictly increasing, from 09:00 (540) to 21:45 (1305). */
  lemma GridSlotsIncreasing()
    ensures SlotMinutes(GridSlots()[0]) == 540
    ensures SlotMinutes(GridSlots()[SlotCount - 1]) == 1305
    ensures forall i, j :: 0 <= i < j < SlotCount ==>
              SlotMinutes(GridSlots()[i]) < SlotMinutes(GridSlots()[j])
  {
    GridSlotAt(0);
    GridSlotAt(SlotCount - 1);
    forall i, j | 0 <= i < j < SlotCount
      ensures SlotMinutes(GridSlots()[i]) < SlotMinutes(GridSlots()[j])
    {
      GridSlotAt(i);
      GridSlotAt(j);
    }
  }

  /** A minute of the day starts a row exactly when it is a quarter hour from 09:00 to 21:45. */
  lemma GridSlotStart(m: int)
    ensures (exists i :: 0 <= i < SlotCount && SlotMinutes(GridSlots()[i]) == m)
            <==> GridStart <= m <= 1305 && m % SlotLength == 0
  {
    if exists i :: 0 <= i < SlotCount && SlotMinutes(GridSlots()[i]) == m {
      var i :| 0 <= i < SlotCount && SlotMinutes(GridSlots()[i]) == m;
      GridSlotAt(i);
    }
    if GridStart <= m <= 1305 && m % SlotLength == 0 {
      var i := (m - GridStart) / SlotLength;
      GridSlotAt(i);
      assert SlotMinutes(GridSlots()[i]) == m;
    }
  }

  /** Minute `m` lies in the 15-minute span of row `s`. */
  predicate InSlot(m: int, s: TimeSlot) {
    SlotMinutes(s) <= m < SlotMinutes(s) + SlotLength
  }

  /** The rows tile 09:00–22:00: each minute of that window lies in exactly one row. */
  lemma SlotsTileWindow(m: int)
    requires GridStart <= m < GridEnd
    ensures 0 <= (m - GridStart) / SlotLength < SlotCount
    ensures InSlot(m, GridSlots()[(m - GridStart) / SlotLength])
    ensures forall j :: 0 <= j < SlotCount && InSlot(m, GridSlots()[j]) ==>
              j == (m - GridStart) / SlotLength
  {
    var i := (m - GridStart) / SlotLength;
    GridSlotAt(i);
    forall j | 0 <= j < SlotCount && InSlot(m, GridSlots()[j])
      ensures j == i
    {
      GridSlotAt(j);
    }
  }

  /**
   * The cell test of `getAppointmentsForCell`: the appointment's minutes
   * `[startMin, endMin)` reach into the slot `[slot, slot + 15)`.
   */
  predicate Overlaps(startMin: int, endMin: int, s: TimeSlot) {
    startMin < SlotMinutes(s) + SlotLength && endMin > SlotMinutes(s)
  }

  /** Minute `m` is one of the appointment's minutes `[startMin, endMin)`. */
  predicate InSpan(m: int, startMin: int, endMin: int) {
    startMin <= m < endMin
  }

  /**
   * For an appointment that ends after it starts, the overlap test holds
   * exactly when the two half-open spans share a minute; a shared minute
   * always passes the test.
   */
  lemma OverlapsSharedMinute(startMin: int, endMin: int, s: TimeSlot)
    ensures (exists m :: InSpan(m, startMin, endMin) && InSlot(m, s)) ==>
            Overlaps(startMin, endMin, s)
    ensures startMin < endMin ==>
            (Overlaps(startMin, endMin, s) <==>
             exists m :: InSpan(m, startMin, endMin) && InSlot(m, s))
  {
    if startMin < endMin && Overlaps(startMin, endMin, s) {
      var m := if startMin < SlotMinutes(s) then SlotMinutes(s) else startMin;
      assert InSpan(m, startMin, endMin) && InSlot(m, s);
    }
  }
}
