/**
 * The administrator's calendar page: the block form's validation rules and the payload
 * it sends, the guard on clicked days, the hour choices of the form, and the events the
 * calendar shows, one per appointment and one per group of blocks. Blocks are grouped
 * by reason and by their stored start and end instants, so only blocks with the same
 * reason and identical times (or the same reason and no times) share an event.
 */
module Calendar {
  import opened Wrappers
  import opened Records
  import opened Text
  import opened Seqs

  /** JavaScript truthiness of an optional text field: present and not empty. */
  predicate Given(s: Option<string>) {
    s.Some? && s.value != ""
  }

  // ---------------------------------------------------------------------------
  // The block form
  // ---------------------------------------------------------------------------

  /** The form's fields; an optional text field is `None` when absent. */
  datatype BlockForm = BlockForm(
    startDate: string,
    endDate: Option<string>,
    fullDay: bool,
    startTime: Option<string>,
    endTime: Option<string>,
    reason: Option<string>)

  /** The fields a validation failure can be reported against. */
  datatype Field = StartDateField | StartTimeField | EndTimeField

  /** A validation failure, reported against one field. */
  datatype Issue = Issue(path: Field, message: string)

  const StartDateRequired := "Fecha de inicio requerida"
  const TimesRequired := "Hora de inicio y fin son requeridas si no bloqueas día completo"
  const EndNotAfterStart := "La hora de fin debe ser posterior a la hora de inicio"

  /** `Number` of the part of a time before its first ':'; `None` is NaN. */
  function HourPart(time: string): Option<int> {
    NumberOf(Split(time, ':')[0])
  }

  /** First rule: a form that does not block the whole day names both times. */
  predicate TimesGiven(f: BlockForm) {
    f.fullDay || (Given(f.startTime) && Given(f.endTime))
  }

  /** Second rule: when both times are named, the end hour comes after the start hour (NaN compares false). */
  predicate EndAfterStart(f: BlockForm) {
    !f.fullDay && Given(f.startTime) && Given(f.endTime) ==>
      && HourPart(f.startTime.value).Some? && HourPart(f.endTime.value).Some?
      && HourPart(f.endTime.value).value > HourPart(f.startTime.value).value
  }

  /** The schema's findings, in the order they are reported. */
  function Issues(f: BlockForm): (r: seq<Issue>)
    ensures r == [] <==> f.startDate != "" && TimesGiven(f) && EndAfterStart(f)
    ensures f.fullDay ==> r == [] || r == [Issue(StartDateField, StartDateRequired)]
    ensures Issue(StartTimeField, TimesRequired) in r <==> !TimesGiven(f)
    ensures Issue(EndTimeField, EndNotAfterStart) in r <==> !EndAfterStart(f)
  {
    (if f.startDate == "" then [Issue(StartDateField, StartDateRequired)] else [])
    + (if TimesGiven(f) then [] else [Issue(StartTimeField, TimesRequired)])
    + (if EndAfterStart(f) then [] else [Issue(EndTimeField, EndNotAfterStart)])
  }

  /** An option of the hour selects: `"<hour>:00"`. */
  function HourLabel(hour: nat): string {
    NatToString(hour) + ":00"
  }

  /** The start-hour choices, 8 to 21. */
  function StartHourOptions(): (r: seq<string>)
    ensures |r| == 14
  {
    seq(14, i requires 0 <= i < 14 => HourLabel(i + 8))
  }

  /** The end-hour choices, 9 to 22. */
  function EndHourOptions(): (r: seq<string>)
    ensures |r| == 14
  {
    seq(14, i requires 0 <= i < 14 => HourLabel(i + 9))
  }

  lemma OptionLabels(i: nat, j: nat)
    requires i < 14 && j < 14
    ensures StartHourOptions()[i] == HourLabel(i + 8) && EndHourOptions()[j] == HourLabel(j + 9)
  {
  }

  /** The second rule reads back the hour an option was built from. */
  lemma HourOfLabel(hour: nat)
    ensures HourPart(HourLabel(hour)) == Some(hour)
  {
    var digits := NatToString(hour);
    assert ':' !in digits by {
      forall k | 0 <= k < |digits|
        ensures digits[k] != ':'
      {
        assert IsDigit(digits[k]);
      }
    }
    SplitAfterPiece(digits, ':', "00");
    assert HourLabel(hour) == digits + [':'] + "00";
    NumberOfNatToString(hour);
  }

  /**
   * A partial form filled from the selects, start option `i` and end option `j`, passes
   * both rules exactly when the end choice is not above the start choice in its list
   * (end hour `j + 9` after start hour `i + 8`).
   */
  lemma OptionsPass(f: BlockForm, i: nat, j: nat)
    requires i < 14 && j < 14 && !f.fullDay && f.startDate != ""
    requires f.startTime == Some(StartHourOptions()[i]) && f.endTime == Some(EndHourOptions()[j])
    ensures Issues(f) == [] <==> i <= j
  {
    OptionLabels(i, j);
    HourOfLabel(i + 8);
    HourOfLabel(j + 9);
    assert TimesGiven(f);
    assert EndAfterStart(f) <==> j + 9 > i + 8;
  }

  /** Start and end choices of the same place in their lists always pass. */
  lemma SamePlaceOptionsPass(f: BlockForm, i: nat)
    requires i < 14 && !f.fullDay && f.startDate != ""
    requires f.startTime == Some(StartHourOptions()[i]) && f.endTime == Some(EndHourOptions()[i])
    ensures Issues(f) == []
  {
    OptionsPass(f, i, i);
  }

  // ---------------------------------------------------------------------------
  // Clicking a day
  // ---------------------------------------------------------------------------

  /** `getDay()` of a day number: day 0, 1 January 1970, was a Thursday (4); Sunday is 0. */
  function Weekday(day: Day): int {
    (day + 4) % 7
  }

  /** Saturdays, Sundays and days before today cannot be picked. */
  predicate ClickRefused(day: Day, today: Day) {
    Weekday(day) == 0 || Weekday(day) == 6 || day < today
  }

  /** What a click leads to: an alert, the block form, or the customer's availability page for that day. */
  datatype Click = Refused | OpenForm(form: BlockForm) | Navigate(day: Day)

  /**
   * `handleDateClick`: a refused day alerts and does nothing else; an administrator gets
   * an empty partial form on that day; anyone else goes to the day's availability.
   */
  function HandleDateClick(day: Day, dateStr: string, today: Day, role: string): (r: Click)
    ensures r.Refused? <==> ClickRefused(day, today)
    ensures r.OpenForm? <==> !ClickRefused(day, today) && role == "ADMIN"
    ensures r.OpenForm? ==> r.form.startDate == dateStr && r.form.endDate == Some(dateStr) && !r.form.fullDay
    ensures r.Navigate? ==> r.day == day
  {
    if ClickRefused(day, today) then Refused
    else if role == "ADMIN" then OpenForm(BlockForm(dateStr, Some(dateStr), false, Some(""), Some(""), Some("")))
    else Navigate(day)
  }

  /** The form a click opens cannot be sent until both times are chosen. */
  lemma OpenedFormNeedsTimes(day: Day, dateStr: string, today: Day)
    requires !ClickRefused(day, today)
    ensures HandleDateClick(day, dateStr, today, "ADMIN").OpenForm?
    ensures Issue(StartTimeField, TimesRequired) in Issues(HandleDateClick(day, dateStr, today, "ADMIN").form)
  {
  }

  // ---------------------------------------------------------------------------
  // Sending the form
  // ---------------------------------------------------------------------------

  /** What `onSubmit` sends; `endDate`, `startTime` and `endTime` are `None` when left out. */
  datatype BlockPayload = BlockPayload(
    date: string,
    fullDay: bool,
    reason: Option<string>,
    endDate: Option<string>,
    startTime: Option<string>,
    endTime: Option<string>)

  /** The local date-time text a time of the form is read from: `<date>T<time>:00`. */
  function LocalTime(date: string, time: string): string {
    date + "T" + time + ":00"
  }

  /**
   * `onSubmit`, which the form calls only once the schema passes: the start date and the
   * flag as they are; an empty reason as null; the end date only when given and not
   * the start date; the two times, on the start date, only for a partial block.
   */
  function OnSubmitPayload(f: BlockForm): (p: BlockPayload)
    requires Issues(f) == []
    ensures p.date == f.startDate && p.fullDay == f.fullDay
    ensures p.reason.Some? <==> Given(f.reason)
    ensures p.reason.Some? ==> p.reason == f.reason
    ensures p.endDate.Some? <==> Given(f.endDate) && f.endDate.value != f.startDate
    ensures p.endDate.Some? ==> p.endDate == f.endDate
    ensures p.startTime.Some? <==> !f.fullDay
    ensures p.endTime.Some? <==> !f.fullDay
    ensures !f.fullDay ==> p.startTime == Some(LocalTime(f.startDate, f.startTime.value))
                           && p.endTime == Some(LocalTime(f.startDate, f.endTime.value))
  {
    var reason := if Given(f.reason) then f.reason else None;
    var endDate := if Given(f.endDate) && f.endDate.value != f.startDate then f.endDate else None;
    if f.fullDay then BlockPayload(f.startDate, true, reason, endDate, None, None)
    else BlockPayload(f.startDate, false, reason, endDate, Some(LocalTime(f.startDate, f.startTime.value)),
                      Some(LocalTime(f.startDate, f.endTime.value)))
  }

  /**
   * From a click to the request: the form a click opens, once given the options `i` and
   * `j` with `i <= j`, sends a partial block of that one day, with no end date and no reason.
   */
  lemma ClickToPayload(day: Day, dateStr: string, today: Day, i: nat, j: nat)
    requires !ClickRefused(day, today) && dateStr != "" && i <= j < 14
    ensures var f := HandleDateClick(day, dateStr, today, "ADMIN").form
                       .(startTime := Some(StartHourOptions()[i]), endTime := Some(EndHourOptions()[j]));
      && Issues(f) == []
      && OnSubmitPayload(f) == BlockPayload(dateStr, false, None, None,
                                            Some(LocalTime(dateStr, HourLabel(i + 8))), Some(LocalTime(dateStr, HourLabel(j + 9))))
  {
    var click := HandleDateClick(day, dateStr, today, "ADMIN");
    assert click == OpenForm(BlockForm(dateStr, Some(dateStr), false, Some(""), Some(""), Some("")));
    var f := BlockForm(dateStr, Some(dateStr), false, Some(StartHourOptions()[i]), Some(EndHourOptions()[j]), Some(""));
    assert click.form.(startTime := Some(StartHourOptions()[i]), endTime := Some(EndHourOptions()[j])) == f;
    OptionsPass(f, i, j);
    OptionLabels(i, j);
    assert OnSubmitPayload(f).reason == None && OnSubmitPayload(f).endDate == None;
  }

  // ---------------------------------------------------------------------------
  // Calendar events
  // ---------------------------------------------------------------------------

  /** An appointment as the calendar data lists it, with its client's name. */
  datatype AppointmentRow = AppointmentRow(id: nat, date: Day, start: Instant, clientName: string)

  /** A blocked slot as the calendar data lists it. */
  datatype BlockRow = BlockRow(id: nat, date: Day, fullDay: bool, start: Option<Instant>, end: Option<Instant>, reason: Option<string>)

  /** The record an event carries along. */
  datatype Source = OfAppointment(appointment: AppointmentRow) | OfBlock(block: BlockRow)

  /** A calendar event: its id, its title, the day it sits on and its record. */
  datatype Event = Event(id: string, title: string, date: Day, source: Source)

  /** `new Date(t).getHours()`, the absent time read as the epoch. */
  function HourText(t: Option<Instant>): string {
    NatToString(if t.Some? then HourOf(t.value) else 0)
  }

  /** One event per appointment: `apt-<id>`, titled with the start hour and the client. */
  function AppointmentEvent(a: AppointmentRow): Event {
    Event("apt-" + NatToString(a.id), HourText(Some(a.start)) + " h - " + a.clientName, a.date, OfAppointment(a))
  }

  function AppointmentEvents(appts: seq<AppointmentRow>): (r: seq<Event>)
    ensures |r| == |appts|
    ensures forall k :: 0 <= k < |r| ==> r[k] == AppointmentEvent(appts[k])
  {
    if appts == [] then [] else AppointmentEvents(appts[..|appts| - 1]) + [AppointmentEvent(appts[|appts| - 1])]
  }

  /** The grouping key: the reason (`sin-motivo` when empty) and the two times (`full` when absent). */
  datatype GroupKey = GroupKey(reason: string, start: Option<Instant>, end: Option<Instant>)

  function KeyOf(b: BlockRow): GroupKey {
    GroupKey(if Given(b.reason) then b.reason.value else "sin-motivo", b.start, b.end)
  }

  /** The blocks of one key, in the order they came. */
  datatype Group = Group(key: GroupKey, members: seq<BlockRow>)

  /** Where the group of `key` is, if there is one yet. */
  function FindGroup(groups: seq<Group>, key: GroupKey): (r: Option<nat>)
    ensures r.Some? ==> r.value < |groups| && groups[r.value].key == key
    ensures r.None? ==> forall i :: 0 <= i < |groups| ==> groups[i].key != key
  {
    if groups == [] then None
    else if groups[0].key == key then Some(0)
    else match FindGroup(groups[1..], key)
      case None => None
      case Some(i) => Some(i + 1)
  }

  /** A block joins the group of its key, which is opened at the end when it is new. */
  function AddBlock(groups: seq<Group>, b: BlockRow): seq<Group> {
    match FindGroup(groups, KeyOf(b))
    case None => groups + [Group(KeyOf(b), [b])]
    case Some(i) => groups[i := groups[i].(members := groups[i].members + [b])]
  }

  /** `blockGroups`, keys in the order they first appear, as `Object.values` visits them. */
  function GroupsOf(blocks: seq<BlockRow>): seq<Group> {
    if blocks == [] then [] else AddBlock(GroupsOf(blocks[..|blocks| - 1]), blocks[|blocks| - 1])
  }

  /** The blocks of `key`, in the order they came. */
  function WithKey(blocks: seq<BlockRow>, key: GroupKey): (r: seq<BlockRow>)
    ensures forall k :: 0 <= k < |r| ==> r[k] in blocks && KeyOf(r[k]) == key
  {
    if blocks == [] then []
    else
      var last := blocks[|blocks| - 1];
      WithKey(blocks[..|blocks| - 1], key) + (if KeyOf(last) == key then [last] else [])
  }

  /** The groups after one block: the group of its key grows by it, or a new group opens at the end. */
  lemma AddBlockShape(gs: seq<Group>, b: BlockRow)
    ensures var r := AddBlock(gs, b);
      && (FindGroup(gs, KeyOf(b)).None? ==> r == gs + [Group(KeyOf(b), [b])])
      && (FindGroup(gs, KeyOf(b)).Some? ==> |r| == |gs|)
      && (forall i :: 0 <= i < |r| ==> r[i].key == (if i < |gs| then gs[i].key else KeyOf(b)))
      && (forall i :: 0 <= i < |gs| ==>
            r[i].members == gs[i].members + (if FindGroup(gs, KeyOf(b)) == Some(i) then [b] else []))
  {
  }

  predicate KeysDistinct(gs: seq<Group>) {
    forall i, j :: 0 <= i < j < |gs| ==> gs[i].key != gs[j].key
  }

  /** No two groups share a key. */
  lemma {:induction false} GroupKeysDistinct(blocks: seq<BlockRow>)
    ensures KeysDistinct(GroupsOf(blocks))
  {
    if blocks != [] {
      var init := blocks[..|blocks| - 1];
      var b := blocks[|blocks| - 1];
      GroupKeysDistinct(init);
      var gs0 := GroupsOf(init);
      var gs := GroupsOf(blocks);
      assert gs == AddBlock(gs0, b);
      AddBlockShape(gs0, b);
      forall i, j | 0 <= i < j < |gs|
        ensures gs[i].key != gs[j].key
      {
        assert gs[i].key == gs0[i].key;
        if j == |gs0| {
          assert FindGroup(gs0, KeyOf(b)).None?;
        } else {
          assert gs[j].key == gs0[j].key;
        }
      }
    }
  }

  /** The key of every block has its group. */
  lemma {:induction false} GroupsCover(blocks: seq<BlockRow>)
    ensures forall k :: 0 <= k < |blocks| ==> FindGroup(GroupsOf(blocks), KeyOf(blocks[k])).Some?
  {
    if blocks != [] {
      var init := blocks[..|blocks| - 1];
      var b := blocks[|blocks| - 1];
      GroupsCover(init);
      var gs0 := GroupsOf(init);
      var gs := GroupsOf(blocks);
      AddBlockShape(gs0, b);
      forall k | 0 <= k < |blocks|
        ensures FindGroup(gs, KeyOf(blocks[k])).Some?
      {
        if k < |init| {
          assert blocks[k] == init[k];
          var at := FindGroup(gs0, KeyOf(init[k])).value;
          assert gs[at].key == KeyOf(blocks[k]);
        } else {
          var at := if FindGroup(gs0, KeyOf(b)).Some? then FindGroup(gs0, KeyOf(b)).value else |gs0|;
          assert gs[at].key == KeyOf(b);
        }
      }
    }
  }

  predicate MembersByKey(gs: seq<Group>, blocks: seq<BlockRow>) {
    forall i :: 0 <= i < |gs| ==> gs[i].members == WithKey(blocks, gs[i].key)
  }

  /** A group holds exactly the blocks of its key, in the order they came. */
  lemma {:induction false} GroupMembers(blocks: seq<BlockRow>)
    ensures MembersByKey(GroupsOf(blocks), blocks)
  {
    if blocks != [] {
      var init := blocks[..|blocks| - 1];
      var b := blocks[|blocks| - 1];
      GroupMembers(init);
      GroupKeysDistinct(init);
      var gs0 := GroupsOf(init);
      var gs := GroupsOf(blocks);
      assert gs == AddBlock(gs0, b);
      AddBlockShape(gs0, b);
      forall i | 0 <= i < |gs|
        ensures gs[i].members == WithKey(blocks, gs[i].key)
      {
        assert WithKey(blocks, gs[i].key) == WithKey(init, gs[i].key) + (if KeyOf(b) == gs[i].key then [b] else []);
        if i == |gs0| {
          GroupsCover(init);
          NoKeyNoMembers(init, KeyOf(b));
        } else if KeyOf(b) == gs[i].key {
          assert gs0[i].key == KeyOf(b);
          var at := FindGroup(gs0, KeyOf(b)).value;
          assert at == i;
        } else {
          assert FindGroup(gs0, KeyOf(b)) != Some(i);
        }
      }
    }
  }

  /** A key no block has gets no members. */
  lemma {:induction false} NoKeyNoMembers(blocks: seq<BlockRow>, key: GroupKey)
    requires forall k :: 0 <= k < |blocks| ==> KeyOf(blocks[k]) != key
    ensures WithKey(blocks, key) == []
  {
    if blocks != [] {
      NoKeyNoMembers(blocks[..|blocks| - 1], key);
    }
  }

  /** Every block is among the members of its own key. */
  lemma {:induction false} InOwnGroup(blocks: seq<BlockRow>, k: nat)
    requires k < |blocks|
    ensures blocks[k] in WithKey(blocks, KeyOf(blocks[k]))
  {
    var init := blocks[..|blocks| - 1];
    var last := blocks[|blocks| - 1];
    if k < |init| {
      InOwnGroup(init, k);
      assert init[k] == blocks[k];
    }
  }

  /** So a block lies in exactly one group: the one of its key. */
  lemma ExactlyOneGroup(blocks: seq<BlockRow>, k: nat)
    requires k < |blocks|
    ensures var gs := GroupsOf(blocks);
      && FindGroup(gs, KeyOf(blocks[k])).Some?
      && blocks[k] in gs[FindGroup(gs, KeyOf(blocks[k])).value].members
      && forall i :: 0 <= i < |gs| && blocks[k] in gs[i].members ==> i == FindGroup(gs, KeyOf(blocks[k])).value
  {
    var gs := GroupsOf(blocks);
    GroupsCover(blocks);
    GroupMembers(blocks);
    GroupKeysDistinct(blocks);
    InOwnGroup(blocks, k);
    var at := FindGroup(gs, KeyOf(blocks[k])).value;
    assert KeysDistinct(gs) && MembersByKey(gs, blocks);
    forall i | 0 <= i < |gs| && blocks[k] in gs[i].members
      ensures i == at
    {
      assert gs[i].key == KeyOf(blocks[k]);
    }
  }

  /** How many blocks the groups hold together. */
  function Size(gs: seq<Group>): nat {
    if gs == [] then 0 else Size(gs[..|gs| - 1]) + |gs[|gs| - 1].members|
  }

  lemma {:induction false} SizeOfUpdate(gs: seq<Group>, i: nat, g: Group)
    requires i < |gs|
    ensures Size(gs[i := g]) == Size(gs) - |gs[i].members| + |g.members|
  {
    var n := |gs| - 1;
    if i < n {
      SizeOfUpdate(gs[..n], i, g);
      assert gs[i := g][..n] == gs[..n][i := g];
    } else {
      assert gs[i := g][..n] == gs[..n];
    }
  }

  /** The groups hold every block once. */
  lemma {:induction false} GroupsSize(blocks: seq<BlockRow>)
    ensures Size(GroupsOf(blocks)) == |blocks|
  {
    if blocks != [] {
      var init := blocks[..|blocks| - 1];
      var b := blocks[|blocks| - 1];
      GroupsSize(init);
      var gs0 := GroupsOf(init);
      match FindGroup(gs0, KeyOf(b))
      case None =>
        assert (gs0 + [Group(KeyOf(b), [b])])[..|gs0|] == gs0;
      case Some(i) =>
        SizeOfUpdate(gs0, i, gs0[i].(members := gs0[i].members + [b]));
    }
  }

  lemma {:induction false} BlockEventsSize(gs: seq<Group>)
    ensures |BlockEvents(gs)| == Size(gs)
  {
    if gs != [] {
      BlockEventsSize(gs[..|gs| - 1]);
    }
  }

  /** The calendar shows one event per appointment, then one per block, each tagged with its record's id. */
  lemma EventCount(appts: seq<AppointmentRow>, blocks: seq<BlockRow>)
    ensures |CalendarEvents(appts, blocks)| == |appts| + |blocks|
    ensures forall k :: 0 <= k < |appts| ==>
      CalendarEvents(appts, blocks)[k].id == "apt-" + NatToString(appts[k].id)
      && CalendarEvents(appts, blocks)[k].source == OfAppointment(appts[k])
  {
    GroupsSize(blocks);
    BlockEventsSize(GroupsOf(blocks));
  }

  /** Ascending by day. */
  function DateOf(b: BlockRow): int {
    b.date
  }

  /**
   * A block's title: `BLOQUEADO` for a whole day; for a partial block, its range when it
   * is alone in its group, else `Desde` on the first, `Hasta` on the last and nothing between.
   */
  function Title(b: BlockRow, idx: nat, n: nat): string {
    if b.fullDay then "BLOQUEADO"
    else if n == 1 then "Bloqueo " + HourText(b.start) + " h - " + HourText(b.end) + " h"
    else if idx == 0 then "Desde " + HourText(b.start) + " h"
    else if idx == n - 1 then "Hasta " + HourText(b.end) + " h"
    else ""
  }

  /** One event per block: `block-<id>`. */
  function BlockEvent(b: BlockRow, idx: nat, n: nat): Event {
    Event("block-" + NatToString(b.id), Title(b, idx, n), b.date, OfBlock(b))
  }

  /** The events of one group, the group sorted by day first. */
  function GroupEvents(members: seq<BlockRow>): (r: seq<Event>)
    ensures |r| == |members|
    ensures forall k :: 0 <= k < |r| ==> r[k] == BlockEvent(SortBy(members, DateOf)[k], k, |r|)
  {
    var sorted := SortBy(members, DateOf);
    seq(|sorted|, idx requires 0 <= idx < |sorted| => BlockEvent(sorted[idx], idx, |sorted|))
  }

  /**
   * The events of a group run in day order, and a partial group reads as one range:
   * alone, its block shows both hours; otherwise the first shows the start hour, the last
   * the end hour, and those between nothing. The hours are the group's own, shared by
   * every member; a whole-day block shows BLOQUEADO.
   */
  lemma GroupTitles(blocks: seq<BlockRow>, i: nat)
    requires i < |GroupsOf(blocks)|
    ensures var g := GroupsOf(blocks)[i];
      var evs := GroupEvents(g.members);
      var n := |evs|;
      && n >= 1
      && (forall k, l :: 0 <= k < l < n ==> evs[k].date <= evs[l].date)
      && (forall k :: 0 <= k < n ==> evs[k].source.OfBlock? && evs[k].source.block.fullDay ==> evs[k].title == "BLOQUEADO")
      && (forall k :: 0 <= k < n ==> !evs[k].source.block.fullDay ==>
            evs[k].title == if n == 1 then "Bloqueo " + HourText(g.key.start) + " h - " + HourText(g.key.end) + " h"
                            else if k == 0 then "Desde " + HourText(g.key.start) + " h"
                            else if k == n - 1 then "Hasta " + HourText(g.key.end) + " h"
                            else "")
  {
    var gs := GroupsOf(blocks);
    var g := gs[i];
    GroupMembers(blocks);
    assert MembersByKey(gs, blocks);
    assert g.members == WithKey(blocks, g.key);
    NonEmptyGroups(blocks);
    SharedKeyTitles(g.members, g.key);
  }

  /** The titles of the events of blocks that all share one key. */
  lemma SharedKeyTitles(members: seq<BlockRow>, key: GroupKey)
    requires |members| >= 1 && forall k :: 0 <= k < |members| ==> KeyOf(members[k]) == key
    ensures var evs := GroupEvents(members);
      var n := |evs|;
      && n >= 1
      && (forall k, l :: 0 <= k < l < n ==> evs[k].date <= evs[l].date)
      && (forall k :: 0 <= k < n ==> evs[k].source.OfBlock? && evs[k].source.block.fullDay ==> evs[k].title == "BLOQUEADO")
      && (forall k :: 0 <= k < n ==> !evs[k].source.block.fullDay ==>
            evs[k].title == if n == 1 then "Bloqueo " + HourText(key.start) + " h - " + HourText(key.end) + " h"
                            else if k == 0 then "Desde " + HourText(key.start) + " h"
                            else if k == n - 1 then "Hasta " + HourText(key.end) + " h"
                            else "")
  {
    var sorted := SortBy(members, DateOf);
    forall k | 0 <= k < |sorted|
      ensures KeyOf(sorted[k]) == key
    {
      assert sorted[k] in multiset(sorted);
      assert sorted[k] in multiset(members);
      var m :| 0 <= m < |members| && members[m] == sorted[k];
    }
  }

  /** A group is opened by a block, so it is never empty. */
  lemma {:induction false} NonEmptyGroups(blocks: seq<BlockRow>)
    ensures forall i :: 0 <= i < |GroupsOf(blocks)| ==> |GroupsOf(blocks)[i].members| >= 1
  {
    if blocks != [] {
      var init := blocks[..|blocks| - 1];
      NonEmptyGroups(init);
      AddBlockShape(GroupsOf(init), blocks[|blocks| - 1]);
    }
  }

  function BlockEvents(groups: seq<Group>): seq<Event> {
    if groups == [] then [] else BlockEvents(groups[..|groups| - 1]) + GroupEvents(groups[|groups| - 1].members)
  }

  /** Every event of `loadCalendarData`: the appointments' first, then each group's. */
  function CalendarEvents(appts: seq<AppointmentRow>, blocks: seq<BlockRow>): seq<Event> {
    AppointmentEvents(appts) + BlockEvents(GroupsOf(blocks))
  }

  /** `loadCalendarData`: the events array built with `forEach` and `push`, each group sorted in place. */
  method LoadCalendarData(appts: seq<AppointmentRow>, blocks: seq<BlockRow>) returns (events: seq<Event>)
    ensures events == CalendarEvents(appts, blocks)
  {
    events := PushAppointmentEvents(appts);
    var groups := GroupBlocks(blocks);
    for g := 0 to |groups|
      invariant events == AppointmentEvents(appts) + BlockEvents(groups[..g])
    {
      var more := PushGroupEvents(groups[g].members);
      BlockEventsSnoc(AppointmentEvents(appts), groups, g);
      events := events + more;
    }
    assert groups[..|groups|] == groups;
  }

  /** Appending one group's events to what is already there. */
  lemma BlockEventsSnoc(before: seq<Event>, groups: seq<Group>, g: nat)
    requires g < |groups|
    ensures before + BlockEvents(groups[..g + 1]) == before + BlockEvents(groups[..g]) + GroupEvents(groups[g].members)
  {
    assert groups[..g + 1][..g] == groups[..g];
  }

  /** One event pushed per appointment. */
  method PushAppointmentEvents(appts: seq<AppointmentRow>) returns (events: seq<Event>)
    ensures events == AppointmentEvents(appts)
  {
    events := [];
    for i := 0 to |appts|
      invariant events == AppointmentEvents(appts[..i])
    {
      assert appts[..i + 1][..i] == appts[..i];
      events := events + [AppointmentEvent(appts[i])];
    }
    assert appts[..|appts|] == appts;
  }

  /** The `blockGroups` dictionary, filled block by block. */
  method GroupBlocks(blocks: seq<BlockRow>) returns (groups: seq<Group>)
    ensures groups == GroupsOf(blocks)
  {
    groups := [];
    for i := 0 to |blocks|
      invariant groups == GroupsOf(blocks[..i])
    {
      assert blocks[..i + 1][..i] == blocks[..i];
      var key := KeyOf(blocks[i]);
      var at := FindGroup(groups, key);
      if at.None? {
        groups := groups + [Group(key, [blocks[i]])];
      } else {
        groups := groups[at.value := groups[at.value].(members := groups[at.value].members + [blocks[i]])];
      }
    }
    assert blocks[..|blocks|] == blocks;
  }

  /** One group: sorted by day, then one event pushed per member. */
  method PushGroupEvents(members: seq<BlockRow>) returns (events: seq<Event>)
    ensures events == GroupEvents(members)
  {
    var group := SortBy(members, DateOf);
    events := [];
    for idx := 0 to |group|
      invariant events == GroupEvents(members)[..idx]
    {
      events := events + [BlockEvent(group[idx], idx, |group|)];
    }
  }
}
