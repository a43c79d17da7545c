/**
 * The availability controller: the hours still open on a day (`getAvailableHours`)
 * and the blocked-slot table (`createBlock`, `deleteBlock`).
 */
module Availability {
  import opened Wrappers
  import opened Records
  import opened Text
  import opened Seqs
  import Store

  // ---------------------------------------------------------------------------
  // Candidate slots
  // ---------------------------------------------------------------------------

  /** A working range of a day, in whole hours: [startHour, endHour). */
  datatype WorkRange = WorkRange(startHour: int, endHour: int)

  /** The two working ranges of every day. */
  const WorkRanges: seq<WorkRange> := [WorkRange(10, 14), WorkRange(17, 22)]

  /** The fixed session length, in minutes. */
  const SessionMinutes: int := 60

  datatype Slot = Slot(start: Instant, end: Instant)

  /** `time.getHours()` for an instant of `day`, counted from that day's midnight. */
  function HourOfDay(day: Day, t: Instant): int {
    (t - DayStart(day)) / 60
  }

  /** Where a range's first slot starts: `setHours(range.start, 0, 0, 0)` on the day. */
  function RangeStart(day: Day, r: WorkRange): Instant {
    DayStart(day) + r.startHour * 60
  }

  /** The slots the inner loop pushes from instant `t` on, while the hour of `t` is before `endHour`. */
  function RangeSlots(day: Day, t: Instant, endHour: int, session: int): seq<Slot>
    requires session > 0
    decreases endHour * 60 - (t - DayStart(day))
  {
    if HourOfDay(day, t) < endHour then [Slot(t, t + session)] + RangeSlots(day, t + session, endHour, session)
    else []
  }

  /** The slots of all ranges, range after range. */
  function Candidates(day: Day, ranges: seq<WorkRange>, session: int): seq<Slot>
    requires session > 0
  {
    if ranges == [] then []
    else
      var last := ranges[|ranges| - 1];
      Candidates(day, ranges[..|ranges| - 1], session) + RangeSlots(day, RangeStart(day, last), last.endHour, session)
  }

  /** The loops that fill `allHours`. */
  method GenerateSlots(day: Day, ranges: seq<WorkRange>, session: int) returns (slots: seq<Slot>)
    requires session > 0
    ensures slots == Candidates(day, ranges, session)
  {
    slots := [];
    for i := 0 to |ranges|
      invariant slots == Candidates(day, ranges[..i], session)
    {
      var range := ranges[i];
      var time := RangeStart(day, range);
      ghost var before := slots;
      while HourOfDay(day, time) < range.endHour
        invariant slots + RangeSlots(day, time, range.endHour, session)
               == before + RangeSlots(day, RangeStart(day, range), range.endHour, session)
        decreases range.endHour * 60 - (time - DayStart(day))
      {
        var end := time + session;
        slots := slots + [Slot(time, end)];
        time := end;
      }
      assert ranges[..i + 1][..i] == ranges[..i];
    }
    assert ranges[..|ranges|] == ranges;
  }

  /** From hour `h` to hour `e`, hourly slots are `e - h` consecutive hours, each 60 minutes long. */
  lemma {:induction false} HourlySlots(day: Day, t: Instant, h: int, e: int)
    requires t == DayStart(day) + h * 60 && h <= e
    ensures |RangeSlots(day, t, e, 60)| == e - h
    ensures forall k :: 0 <= k < e - h ==>
      RangeSlots(day, t, e, 60)[k] == Slot(t + k * 60, t + k * 60 + 60)
    decreases e - h
  {
    assert HourOfDay(day, t) == h;
    if h < e {
      HourlySlots(day, t + 60, h + 1, e);
      var rest := RangeSlots(day, t + 60, e, 60);
      assert RangeSlots(day, t, e, 60) == [Slot(t, t + 60)] + rest;
      forall k | 1 <= k < e - h
        ensures RangeSlots(day, t, e, 60)[k] == Slot(t + k * 60, t + k * 60 + 60)
      {
        assert rest[k - 1] == Slot(t + 60 + (k - 1) * 60, t + 60 + (k - 1) * 60 + 60);
      }
    }
  }

  /** The start hours of a working day's slots. */
  const OpeningHours: seq<int> := [10, 11, 12, 13, 17, 18, 19, 20, 21]

  /**
   * Every day offers the same nine slots, 10, 11, 12, 13, 17, 18, 19, 20 and 21 o'clock,
   * each 60 minutes long, in ascending order and pairwise disjoint.
   */
  lemma WorkingDaySlots(day: Day)
    ensures |Candidates(day, WorkRanges, SessionMinutes)| == 9
    ensures forall k :: 0 <= k < 9 ==>
      Candidates(day, WorkRanges, SessionMinutes)[k]
        == Slot(DayStart(day) + OpeningHours[k] * 60, DayStart(day) + OpeningHours[k] * 60 + SessionMinutes)
    ensures forall k, l :: 0 <= k < l < 9 ==>
      Candidates(day, WorkRanges, SessionMinutes)[k].end <= Candidates(day, WorkRanges, SessionMinutes)[l].start
  {
    var morning := RangeSlots(day, DayStart(day) + 10 * 60, 14, 60);
    var evening := RangeSlots(day, DayStart(day) + 17 * 60, 22, 60);
    HourlySlots(day, DayStart(day) + 10 * 60, 10, 14);
    HourlySlots(day, DayStart(day) + 17 * 60, 17, 22);
    assert WorkRanges[..1] == [WorkRange(10, 14)];
    assert WorkRanges[..1][..0] == [];
    assert Candidates(day, WorkRanges[..1], 60) == morning;
    var c := Candidates(day, WorkRanges, SessionMinutes);
    assert c == morning + evening;
    forall k | 0 <= k < 9
      ensures c[k] == Slot(DayStart(day) + OpeningHours[k] * 60, DayStart(day) + OpeningHours[k] * 60 + SessionMinutes)
    {
      if k < 4 { assert c[k] == morning[k]; } else { assert c[k] == evening[k - 4]; }
    }
  }

  // ---------------------------------------------------------------------------
  // Filters
  // ---------------------------------------------------------------------------

  /** Half-open interval intersection: ranges that only touch do not overlap. */
  predicate Overlaps(start1: Instant, end1: Instant, start2: Instant, end2: Instant) {
    start1 < end2 && end1 > start2
  }

  /** The states that still hold their time: every state but CANCELED and NOT_ASSISTED. */
  predicate Live(st: State) {
    st != CANCELED && st != NOT_ASSISTED
  }

  /** A live appointment of `day` overlaps the slot. */
  predicate Booked(slot: Slot, day: Day, appts: map<int, Appointment>) {
    exists id :: id in appts && appts[id].date == day && Live(appts[id].state)
                 && Overlaps(slot.start, slot.end, appts[id].start, appts[id].end)
  }

  /** A block with both times set, whatever its `fullDay` flag says. */
  predicate IsPartial(b: BlockedSlot) {
    b.start.Some? && b.end.Some?
  }

  /** A block of `day` with both times set overlaps the slot. */
  predicate PartiallyBlocked(slot: Slot, day: Day, blocks: map<int, BlockedSlot>) {
    exists id :: id in blocks && blocks[id].date == day && IsPartial(blocks[id])
                 && Overlaps(slot.start, slot.end, blocks[id].start.value, blocks[id].end.value)
  }

  predicate HasFullDayBlock(day: Day, blocks: map<int, BlockedSlot>) {
    exists id :: id in blocks && blocks[id].date == day && blocks[id].fullDay
  }

  /** The candidate slots of `day` that survive both filters; none at all on a fully blocked day. */
  function AvailableSlots(day: Day, appts: map<int, Appointment>, blocks: map<int, BlockedSlot>): seq<Slot> {
    if HasFullDayBlock(day, blocks) then []
    else
      var free := Filter(Candidates(day, WorkRanges, SessionMinutes), s => !Booked(s, day, appts));
      Filter(free, s => !PartiallyBlocked(s, day, blocks))
  }

  /** A two-digit, zero-padded number, as the `HH` and `mm` fields print. */
  function Pad2(n: nat): string {
    if n < 10 then "0" + NatToString(n) else NatToString(n)
  }

  /** `format(t, "HH:mm")`. */
  function FormatClock(t: Instant): string {
    Pad2(HourOf(t)) + ":" + Pad2(MinuteOf(t))
  }

  function AvailableHours(day: Day, appts: map<int, Appointment>, blocks: map<int, BlockedSlot>): seq<string> {
    MapSeq(AvailableSlots(day, appts, blocks), (s: Slot) => FormatClock(s.start))
  }

  /** `GET /availability/:date`: the free hours of `day` as "HH:mm" texts. */
  method GetAvailableHours(db: Store.Db, day: Day) returns (hours: seq<string>)
    ensures hours == AvailableHours(day, db.appointments, db.blocks)
    ensures |hours| <= 9
  {
    WorkingDaySlots(day);
    if HasFullDayBlock(day, db.blocks) {
      return [];
    }
    var all := GenerateSlots(day, WorkRanges, SessionMinutes);
    var appts, blocks := db.appointments, db.blocks;
    var available := Filter(all, s => !Booked(s, day, appts));
    available := Filter(available, s => !PartiallyBlocked(s, day, blocks));
    hours := MapSeq(available, (s: Slot) => FormatClock(s.start));
  }

  /** A full-day block empties the day, whatever the appointments. */
  lemma FullDayBlockDominates(day: Day, appts: map<int, Appointment>, blocks: map<int, BlockedSlot>, id: int)
    requires id in blocks && blocks[id].date == day && blocks[id].fullDay
    ensures AvailableHours(day, appts, blocks) == []
  {
  }

  /**
   * Without a full-day block, a slot is listed exactly when it is a candidate that no live
   * appointment of the day and no timed block of the day overlaps.
   */
  lemma SlotListedIff(day: Day, appts: map<int, Appointment>, blocks: map<int, BlockedSlot>, slot: Slot)
    requires !HasFullDayBlock(day, blocks)
    ensures slot in AvailableSlots(day, appts, blocks)
       <==> slot in Candidates(day, WorkRanges, SessionMinutes) && !Booked(slot, day, appts) && !PartiallyBlocked(slot, day, blocks)
  {
    var c := Candidates(day, WorkRanges, SessionMinutes);
    var free := Filter(c, s => !Booked(s, day, appts));
    var r := Filter(free, s => !PartiallyBlocked(s, day, blocks));
    if slot in r {
      var i :| 0 <= i < |r| && r[i] == slot;
      var j :| 0 <= j < |free| && free[j] == slot;
    }
    if slot in c && !Booked(slot, day, appts) && !PartiallyBlocked(slot, day, blocks) {
      var i :| 0 <= i < |c| && c[i] == slot;
      var j :| 0 <= j < |free| && free[j] == slot;
    }
  }

  /** The listed slots keep the candidates' order: they are an order-preserving subsequence of them. */
  lemma AvailableIsSubsequence(day: Day, appts: map<int, Appointment>, blocks: map<int, BlockedSlot>)
    ensures IsSubsequence(AvailableSlots(day, appts, blocks), Candidates(day, WorkRanges, SessionMinutes))
  {
    var c := Candidates(day, WorkRanges, SessionMinutes);
    if !HasFullDayBlock(day, blocks) {
      var free := Filter(c, s => !Booked(s, day, appts));
      FilterIsSubsequence(c, s => !Booked(s, day, appts));
      FilterIsSubsequence(free, s => !PartiallyBlocked(s, day, blocks));
      SubsequenceTrans(Filter(free, s => !PartiallyBlocked(s, day, blocks)), free, c);
    } else {
      EmptyIsSubsequence(c);
    }
  }

  /** An appointment that ends when the slot starts, or starts when it ends, leaves the slot free. */
  lemma TouchingAppointmentKeepsSlot(slot: Slot, a: Appointment)
    requires a.end == slot.start || a.start == slot.end
    requires slot.start < slot.end && a.start < a.end
    ensures !Overlaps(slot.start, slot.end, a.start, a.end)
  {
  }

  // ---------------------------------------------------------------------------
  // Blocked-slot table
  // ---------------------------------------------------------------------------

  /** The overlap test of block creation: closed at both ends, so touching windows conflict. */
  predicate ClosedOverlap(start1: Instant, end1: Instant, start2: Instant, end2: Instant) {
    start1 <= end2 && end1 >= start2
  }

  /** A stored timed block of `day` meets the window [start, end] under the closed test. */
  predicate MeetsPartialBlock(day: Day, start: Instant, end: Instant, blocks: map<int, BlockedSlot>) {
    exists id :: id in blocks && blocks[id].date == day && !blocks[id].fullDay && IsPartial(blocks[id])
                 && ClosedOverlap(blocks[id].start.value, blocks[id].end.value, start, end)
  }

  /** A full-day block has no times; any other block has both. */
  predicate WellFormed(b: BlockedSlot) {
    if b.fullDay then b.start.None? && b.end.None? else IsPartial(b)
  }

  /**
   * The per-day invariants of the table: a full-day block is the only block of its day,
   * and the timed blocks of a day do not meet one another under the closed test.
   */
  predicate BlocksValid(blocks: map<int, BlockedSlot>) {
    && (forall id :: id in blocks ==> WellFormed(blocks[id]))
    && (forall i, j :: i in blocks && j in blocks && i != j && blocks[i].date == blocks[j].date ==> !blocks[i].fullDay)
    && (forall i, j :: i in blocks && j in blocks && i != j && blocks[i].date == blocks[j].date && !blocks[i].fullDay && !blocks[j].fullDay
          ==> !ClosedOverlap(blocks[i].start.value, blocks[i].end.value, blocks[j].start.value, blocks[j].end.value))
  }

  /** The table without the blocks of `day` (`deleteMany({ where: { date } })`). */
  function BlocksOff(blocks: map<int, BlockedSlot>, day: Day): (r: map<int, BlockedSlot>)
    ensures forall id :: id in r <==> id in blocks && blocks[id].date != day
  {
    map id | id in blocks && blocks[id].date != day :: blocks[id]
  }

  /** The body of `POST /availability/block`; `None` times are absent fields (end dates are not read). */
  datatype BlockRequest = BlockRequest(date: Day, start: Option<Instant>, end: Option<Instant>, fullDay: bool, reason: Option<string>)

  const DayAlreadyBlocked := "Este día ya está completamente bloqueado"
  const RangeAlreadyBlocked := "Ya existe un bloqueo en este rango horario"
  const CreateBlockFailed := "Error al crear bloqueo"
  const DeleteBlockFailed := "Error al eliminar bloqueo"

  /**
   * `createBlock`: refused on a fully blocked day; a full-day request replaces every block of
   * the day with one full-day block; a timed request is refused when it meets a timed block
   * of the day (touching included), and otherwise adds exactly one timed block. A timed
   * request without both times fails in the store (status 500).
   */
  method CreateBlock(db: Store.Db, req: BlockRequest) returns (r: Reply<BlockedSlot>)
    requires BlocksValid(db.blocks) && KeysBelow(db.blocks, db.nextBlockId)
    modifies db`blocks, db`nextBlockId
    ensures BlocksValid(db.blocks) && KeysBelow(db.blocks, db.nextBlockId)
    ensures HasFullDayBlock(req.date, old(db.blocks)) ==>
      r == Err(400, DayAlreadyBlocked) && db.blocks == old(db.blocks) && db.nextBlockId == old(db.nextBlockId)
    ensures !HasFullDayBlock(req.date, old(db.blocks)) && req.fullDay ==>
      && r == Ok(BlockedSlot(req.date, true, None, None, req.reason))
      && db.blocks == BlocksOff(old(db.blocks), req.date)[old(db.nextBlockId) := r.value]
      && db.nextBlockId == old(db.nextBlockId) + 1
    ensures !HasFullDayBlock(req.date, old(db.blocks)) && !req.fullDay && (req.start.None? || req.end.None?) ==>
      r == Err(500, CreateBlockFailed) && db.blocks == old(db.blocks) && db.nextBlockId == old(db.nextBlockId)
    ensures !HasFullDayBlock(req.date, old(db.blocks)) && !req.fullDay && req.start.Some? && req.end.Some? ==>
      if MeetsPartialBlock(req.date, req.start.value, req.end.value, old(db.blocks)) then
        r == Err(400, RangeAlreadyBlocked) && db.blocks == old(db.blocks) && db.nextBlockId == old(db.nextBlockId)
      else
        && r == Ok(BlockedSlot(req.date, false, req.start, req.end, req.reason))
        && db.blocks == old(db.blocks)[old(db.nextBlockId) := r.value]
        && db.nextBlockId == old(db.nextBlockId) + 1
  {
    if HasFullDayBlock(req.date, db.blocks) {
      return Err(400, DayAlreadyBlocked);
    }
    if req.fullDay {
      db.blocks := BlocksOff(db.blocks, req.date);
      var block := BlockedSlot(req.date, true, None, None, req.reason);
      db.blocks := db.blocks[db.nextBlockId := block];
      db.nextBlockId := db.nextBlockId + 1;
      return Ok(block);
    }
    if req.start.None? || req.end.None? {
      return Err(500, CreateBlockFailed);
    }
    if MeetsPartialBlock(req.date, req.start.value, req.end.value, db.blocks) {
      return Err(400, RangeAlreadyBlocked);
    }
    var block := BlockedSlot(req.date, false, req.start, req.end, req.reason);
    db.blocks := db.blocks[db.nextBlockId := block];
    db.nextBlockId := db.nextBlockId + 1;
    r := Ok(block);
  }

  /**
   * `deleteBlock`: the route id read by `parseInt`; removes exactly the block with that id.
   * A NaN or unknown id fails in the store (status 500).
   */
  method DeleteBlock(db: Store.Db, routeId: string) returns (r: Reply<string>)
    requires BlocksValid(db.blocks)
    modifies db`blocks
    ensures BlocksValid(db.blocks)
    ensures (ParseInt(routeId).None? || ParseInt(routeId).value !in old(db.blocks)) ==>
      r == Err(500, DeleteBlockFailed) && db.blocks == old(db.blocks)
    ensures ParseInt(routeId).Some? && ParseInt(routeId).value in old(db.blocks) ==>
      r.Ok? && db.blocks == old(db.blocks) - {ParseInt(routeId).value}
  {
    if ParseInt(routeId).None? {
      return Err(500, DeleteBlockFailed);
    }
    var id := ParseInt(routeId).value;
    if id !in db.blocks {
      return Err(500, DeleteBlockFailed);
    }
    db.blocks := db.blocks - {id};
    r := Ok("Bloqueo eliminado correctamente");
  }

  /** The windows the table refuses are a superset of those the listing treats as overlapping. */
  lemma HalfOpenOverlapIsClosedOverlap(start1: Instant, end1: Instant, start2: Instant, end2: Instant)
    requires Overlaps(start1, end1, start2, end2)
    ensures ClosedOverlap(start1, end1, start2, end2)
  {
  }

  /** A timed request that starts when a stored timed block of the day ends is refused. */
  lemma TouchingBlockRefused(blocks: map<int, BlockedSlot>, id: int, start: Instant, end: Instant)
    requires id in blocks && !blocks[id].fullDay && IsPartial(blocks[id])
    requires blocks[id].start.value <= blocks[id].end.value == start <= end
    ensures MeetsPartialBlock(blocks[id].date, start, end, blocks)
  {
  }
}
