/**
 * The customer's booking page: the hours the server offers, less those already past when
 * the chosen day is today, and the request sent when a booking is confirmed.
 */
module Booking {
  import opened Wrappers
  import opened Records
  import opened Text
  import opened Seqs
  import Availability

  /** `hour.split(":").map(Number)`: the hour and the minutes of an "H:m" text; `None` is NaN or absent. */
  function HourAndMinute(hour: string): (Option<int>, Option<int>) {
    var parts := Split(hour, ':');
    (NumberOf(parts[0]), if |parts| > 1 then NumberOf(parts[1]) else None)
  }

  /** An hour is still ahead of `now`: a later hour, or the same hour and later minutes (NaN compares false). */
  predicate StillAhead(hour: string, nowHour: int, nowMinute: int) {
    var (h, m) := HourAndMinute(hour);
    h.Some? && (h.value > nowHour || (h.value == nowHour && m.Some? && m.value > nowMinute))
  }

  /**
   * The hours shown for `selected`: the offered hours as they are on any other day; on
   * today, only those still ahead of the current hour and minute.
   */
  function ShownHours(hours: seq<string>, selected: Day, today: Day, nowHour: int, nowMinute: int): (r: seq<string>)
    ensures selected != today ==> r == hours
    ensures selected == today ==> forall h :: h in r <==> h in hours && StillAhead(h, nowHour, nowMinute)
    ensures IsSubsequence(r, hours)
    ensures selected == today ==> r == Filter(hours, h => StillAhead(h, nowHour, nowMinute))
  {
    if selected != today then
      assert IsSubsequence(hours, hours) by { SubsequenceRefl(hours); }
      hours
    else
      var r := Filter(hours, h => StillAhead(h, nowHour, nowMinute));
      FilterIsSubsequence(hours, h => StillAhead(h, nowHour, nowMinute));
      r
  }

  /** A two-digit field is digits only and reads back as its number. */
  lemma Pad2Reads(n: nat)
    requires n < 100
    ensures IsDigits(Availability.Pad2(n)) && ':' !in Availability.Pad2(n)
    ensures NumberOf(Availability.Pad2(n)) == Some(n)
    ensures ParseInt(Availability.Pad2(n)) == Some(n)
  {
    var p := Availability.Pad2(n);
    if n < 10 {
      assert p[..|p| - 1] == "0";
      assert DigitsValue("0") == 0 by {
        assert "0"[..0] == "";
      }
    }
    DigitsRead(p);
    assert forall k :: 0 <= k < |p| ==> IsDigit(p[k]);
  }

  /** Two separator-free pieces around one ':' split back into the two pieces. */
  lemma SplitPair(hh: string, mm: string)
    requires ':' !in hh && ':' !in mm
    ensures Split(hh + ":" + mm, ':') == [hh, mm]
  {
    SplitAfterPiece(hh, ':', mm);
    assert hh + ":" + mm == hh + [':'] + mm;
  }

  /** The text of an hour and minutes, both below 100, reads back as those numbers. */
  lemma ClockText(h: nat, m: nat)
    requires h < 100 && m < 100
    ensures Split(Availability.Pad2(h) + ":" + Availability.Pad2(m), ':') == [Availability.Pad2(h), Availability.Pad2(m)]
    ensures HourAndMinute(Availability.Pad2(h) + ":" + Availability.Pad2(m)) == (Some(h), Some(m))
  {
    Pad2Reads(h);
    Pad2Reads(m);
    SplitPair(Availability.Pad2(h), Availability.Pad2(m));
  }

  /** The hour and minutes of a slot text as the server formats it. */
  lemma ClockParts(t: Instant)
    ensures Split(Availability.FormatClock(t), ':') == [Availability.Pad2(HourOf(t)), Availability.Pad2(MinuteOf(t))]
    ensures HourAndMinute(Availability.FormatClock(t)) == (Some(HourOf(t)), Some(MinuteOf(t)))
  {
    assert HourOf(t) < 100 && MinuteOf(t) < 100;
    ClockText(HourOf(t), MinuteOf(t));
  }

  /** On today, the slot starting at the current hour and minute is dropped, and a slot of a later hour is kept. */
  lemma TodayDropsTheCurrentSlot(hours: seq<string>, today: Day, t: Instant, now: Instant)
    requires Availability.FormatClock(t) in hours
    ensures HourOf(t) == HourOf(now) && MinuteOf(t) == MinuteOf(now) ==>
      Availability.FormatClock(t) !in ShownHours(hours, today, today, HourOf(now), MinuteOf(now))
    ensures HourOf(t) > HourOf(now) ==>
      Availability.FormatClock(t) in ShownHours(hours, today, today, HourOf(now), MinuteOf(now))
  {
    ClockParts(t);
  }

  // ---------------------------------------------------------------------------
  // Confirming
  // ---------------------------------------------------------------------------

  /** The body of the booking request. */
  datatype BookingPayload = BookingPayload(appointmentDate: string, startHour: Option<int>, serviceId: Option<int>)

  /** What confirming does: ask for an hour, or send the request. */
  datatype Confirm = Prompt(message: string) | Send(payload: BookingPayload)

  const PickAnHour := "Selecciona una hora."

  /**
   * `handleConfirm`: with no hour chosen only the prompt shows; otherwise the request
   * carries the route's date text as it is, `parseInt` of the hour before ':' and of
   * the chosen treatment.
   */
  function HandleConfirm(selectedHour: Option<string>, rawDate: string, treatment: string): (r: Confirm)
    ensures r.Prompt? <==> selectedHour.None? || selectedHour.value == ""
    ensures r.Prompt? ==> r.message == PickAnHour
    ensures r.Send? ==>
      && r.payload.appointmentDate == rawDate
      && r.payload.startHour == ParseInt(Split(selectedHour.value, ':')[0])
      && r.payload.serviceId == ParseInt(treatment)
  {
    if selectedHour.None? || selectedHour.value == "" then Prompt(PickAnHour)
    else Send(BookingPayload(rawDate, ParseInt(Split(selectedHour.value, ':')[0]), ParseInt(treatment)))
  }

  /** Booking a listed slot sends that slot's hour. */
  lemma ConfirmSendsSlotHour(t: Instant, rawDate: string, treatment: string)
    ensures HandleConfirm(Some(Availability.FormatClock(t)), rawDate, treatment).Send?
    ensures HandleConfirm(Some(Availability.FormatClock(t)), rawDate, treatment).payload.startHour == Some(HourOf(t))
  {
    var text := Availability.FormatClock(t);
    ClockParts(t);
    assert Split(text, ':')[0] == Availability.Pad2(HourOf(t));
    assert HourOf(t) < 100;
    Pad2Reads(HourOf(t));
    assert text != "" by { assert |Split(text, ':')| == 2; }
  }
}
