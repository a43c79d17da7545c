/**
 * The appointment controller: listings with pagination, reading one appointment,
 * creating, updating and deleting appointments, each gated by the caller's identity.
 */
module Appointments {
  import opened Wrappers
  import opened Records
  import opened Text
  import opened Seqs
  import opened Paging
  import Store

  const NotFound := "Appointment not found"
  const ViewDenied := "Access denied. You can only view your own appointments."
  const UpdateDenied := "Access denied. You can only update your own appointments."
  const StateAdminOnly := "Access denied. Only administrators can change the appointment state."
  const NoFields := "No fields provided for update"
  const DeleteAdminOnly := "Access denied. Only administrators can delete appointments."
  const InvalidReference := "Client or Service not found (Invalid clientId or serviceId)"
  const DuplicateBooking := "A client already has an appointment at this date and time"
  const InvalidService := "Service not found (Invalid serviceId)"
  const DuplicateUpdate := "Another appointment already exists at this date and time for this client"
  const CreateFailed := "Server error creating appointment"
  const GetFailed := "Server error getting appointment"
  const DeleteFailed := "Server error deleting appointment"

  predicate IsAdmin(caller: Principal) {
    caller.role == "ADMIN"
  }

  /** An administrator, or the appointment's own client. */
  predicate MayAccess(caller: Principal, a: Appointment) {
    IsAdmin(caller) || a.clientId == caller.userId
  }

  /** JavaScript truthiness of an optional text field: present and not empty. */
  predicate Given(s: Option<string>) {
    s.Some? && s.value != ""
  }

  // ---------------------------------------------------------------------------
  // The unique key (client, day, start)
  // ---------------------------------------------------------------------------

  predicate SameKey(a: Appointment, b: Appointment) {
    a.clientId == b.clientId && a.date == b.date && a.start == b.start
  }

  /** Some stored appointment already has the key of `a`. */
  predicate KeyTaken(appts: map<int, Appointment>, a: Appointment) {
    exists id :: id in appts && SameKey(appts[id], a)
  }

  /** The store's unique constraint: no two appointments share client, day and start. */
  predicate KeysUnique(appts: map<int, Appointment>) {
    forall i, j :: i in appts && j in appts && i != j ==> !SameKey(appts[i], appts[j])
  }

  /** A record whose key is free keeps the keys unique under a new id. */
  lemma InsertKeepsUnique(appts: map<int, Appointment>, k: int, a: Appointment)
    requires KeysUnique(appts) && k !in appts && !KeyTaken(appts, a)
    ensures KeysUnique(appts[k := a])
  {
    var m := appts[k := a];
    forall i, j | i in m && j in m && i != j
      ensures !SameKey(m[i], m[j])
    {
      if i == k { assert j in appts; }
      else if j == k { assert i in appts; }
    }
  }

  /** A record whose key no other row has keeps the keys unique when it replaces row `k`. */
  lemma ReplaceKeepsUnique(appts: map<int, Appointment>, k: int, a: Appointment)
    requires KeysUnique(appts) && !KeyTaken(appts - {k}, a)
    ensures KeysUnique(appts[k := a])
  {
    var m := appts[k := a];
    forall i, j | i in m && j in m && i != j
      ensures !SameKey(m[i], m[j])
    {
      if i == k { assert j in appts - {k}; }
      else if j == k { assert i in appts - {k}; }
    }
  }

  // ---------------------------------------------------------------------------
  // Listings
  // ---------------------------------------------------------------------------

  /** The stored rows, in id order. */
  function Rows(appts: map<int, Appointment>, next: nat): (r: seq<Appointment>)
    ensures forall k :: 0 <= k < |r| ==> r[k] in appts.Values
    ensures forall id :: id in appts && 0 <= id < next ==> appts[id] in r
  {
    var ids := IdsBelow(appts, next);
    var r := seq(|ids|, k requires 0 <= k < |ids| => appts[ids[k]]);
    assert forall id :: id in appts && 0 <= id < next ==> appts[id] in r by {
      forall id | id in appts && 0 <= id < next
        ensures appts[id] in r
      {
        var k :| 0 <= k < |ids| && ids[k] == id;
        assert r[k] == appts[id];
      }
    }
    r
  }

  /** The `where` of a listing: an optional client and an optional state. */
  datatype Criteria = Criteria(clientId: Option<int>, state: Option<State>)

  predicate Matches(a: Appointment, c: Criteria) {
    (c.clientId.None? || a.clientId == c.clientId.value) && (c.state.None? || a.state == c.state.value)
  }

  datatype Listing = Listing(page: int, limit: int, total: nat, totalPages: Option<int>, rows: seq<Appointment>)

  /** Newest day first. */
  function DateKey(a: Appointment): int {
    -a.date
  }

  /** Every matching row, newest day first. */
  function Ordered(appts: map<int, Appointment>, next: nat, c: Criteria): seq<Appointment> {
    SortBy(Filter(Rows(appts, next), a => Matches(a, c)), DateKey)
  }

  /** One page of the matching rows, with their count and the page count. */
  function ListPage(appts: map<int, Appointment>, next: nat, c: Criteria, w: Window): (r: Listing)
    ensures r.total == |Ordered(appts, next, c)|
    ensures r.totalPages == TotalPages(r.total, w.limit)
    ensures r.rows == PageOf(Ordered(appts, next, c), w.skip, w.limit)
  {
    var ordered := Ordered(appts, next, c);
    Listing(w.page, w.limit, |ordered|, TotalPages(|ordered|, w.limit), PageOf(ordered, w.skip, w.limit))
  }

  /**
   * A page holds at most `limit` rows, each a stored appointment matching the criteria,
   * newest day first.
   */
  lemma ListPageRows(appts: map<int, Appointment>, next: nat, c: Criteria, w: Window)
    ensures |ListPage(appts, next, c, w).rows| <= Abs(w.limit)
    ensures forall k :: 0 <= k < |ListPage(appts, next, c, w).rows| ==>
      ListPage(appts, next, c, w).rows[k] in appts.Values && Matches(ListPage(appts, next, c, w).rows[k], c)
    ensures forall k, l :: 0 <= k < l < |ListPage(appts, next, c, w).rows| ==>
      ListPage(appts, next, c, w).rows[k].date >= ListPage(appts, next, c, w).rows[l].date
  {
    OrderedRows(appts, next, c);
    PageOfListed(appts, c, Ordered(appts, next, c), w.skip, w.limit);
  }

  /** Every row is a stored appointment matching `c`. */
  ghost predicate StoredMatching(appts: map<int, Appointment>, c: Criteria, rows: seq<Appointment>) {
    forall k :: 0 <= k < |rows| ==> rows[k] in appts.Values && Matches(rows[k], c)
  }

  /** Newest day first. */
  ghost predicate NewestFirst(rows: seq<Appointment>) {
    forall k, l :: 0 <= k < l < |rows| ==> rows[k].date >= rows[l].date
  }

  /** A page cut from stored, matching rows, newest day first, is so too. */
  lemma PageOfListed(appts: map<int, Appointment>, c: Criteria, rows: seq<Appointment>, skip: nat, limit: int)
    requires StoredMatching(appts, c, rows) && NewestFirst(rows)
    ensures StoredMatching(appts, c, PageOf(rows, skip, limit)) && NewestFirst(PageOf(rows, skip, limit))
  {
    var p := PageOf(rows, skip, limit);
    var s := PageStart(|rows|, skip, limit);
    forall k | 0 <= k < |p|
      ensures p[k] in appts.Values && Matches(p[k], c)
    {
      assert p[k] == rows[s + k];
    }
    forall k, l | 0 <= k < l < |p|
      ensures p[k].date >= p[l].date
    {
      assert p[k] == rows[s + k] && p[l] == rows[s + l];
    }
  }

  /** The matching rows are stored appointments that match, newest day first. */
  lemma OrderedRows(appts: map<int, Appointment>, next: nat, c: Criteria)
    ensures StoredMatching(appts, c, Ordered(appts, next, c)) && NewestFirst(Ordered(appts, next, c))
  {
    var matching := Filter(Rows(appts, next), a => Matches(a, c));
    var ordered := Ordered(appts, next, c);
    forall k | 0 <= k < |ordered|
      ensures ordered[k] in appts.Values && Matches(ordered[k], c)
    {
      assert ordered[k] in multiset(ordered);
      assert ordered[k] in matching;
      var m :| 0 <= m < |matching| && matching[m] == ordered[k];
    }
    forall k, l | 0 <= k < l < |ordered|
      ensures ordered[k].date >= ordered[l].date
    {
      assert DateKey(ordered[k]) <= DateKey(ordered[l]);
    }
  }

  /** The stored ids below `n` whose appointment matches the criteria. */
  function MatchingIds(appts: map<int, Appointment>, n: nat, c: Criteria): (r: set<int>)
    ensures forall id :: id in r <==> id in appts && 0 <= id < n && Matches(appts[id], c)
  {
    if n == 0 then {}
    else if n - 1 in appts && Matches(appts[n - 1], c) then MatchingIds(appts, n - 1, c) + {n - 1}
    else MatchingIds(appts, n - 1, c)
  }

  /** A listing's total is the number of stored appointments below the counter that match. */
  lemma ListPageTotal(appts: map<int, Appointment>, next: nat, c: Criteria, w: Window)
    ensures ListPage(appts, next, c, w).total == |set id | id in appts && 0 <= id < next && Matches(appts[id], c)|
  {
    MatchingRowCount(appts, next, c, a => Matches(a, c));
    assert MatchingIds(appts, next, c) == set id | id in appts && 0 <= id < next && Matches(appts[id], c);
  }

  lemma {:induction false} MatchingRowCount(appts: map<int, Appointment>, n: nat, c: Criteria, p: Appointment -> bool)
    requires forall a :: p(a) == Matches(a, c)
    ensures |Filter(Rows(appts, n), p)| == |MatchingIds(appts, n, c)|
  {
    if n > 0 {
      MatchingRowCount(appts, n - 1, c, p);
      if n - 1 in appts {
        assert p(appts[n - 1]) == Matches(appts[n - 1], c);
      }
      MatchingRowStep(appts, n, c, p);
    }
  }

  /** The count of passing rows and the count of matching ids grow together. */
  lemma MatchingRowStep(appts: map<int, Appointment>, n: nat, c: Criteria, p: Appointment -> bool)
    requires n > 0 && |Filter(Rows(appts, n - 1), p)| == |MatchingIds(appts, n - 1, c)|
    requires n - 1 in appts ==> p(appts[n - 1]) == Matches(appts[n - 1], c)
    ensures |Filter(Rows(appts, n), p)| == |MatchingIds(appts, n, c)|
  {
    FilterRowsStep(appts, n, p);
    MatchingIdsStep(appts, n, c);
  }

  lemma FilterRowsStep(appts: map<int, Appointment>, n: nat, p: Appointment -> bool)
    requires n > 0
    ensures |Filter(Rows(appts, n), p)| == |Filter(Rows(appts, n - 1), p)| + if n - 1 in appts && p(appts[n - 1]) then 1 else 0
  {
    RowsStep(appts, n);
    if n - 1 in appts {
      var x := appts[n - 1];
      FilterAppend(Rows(appts, n - 1), [x], p);
      assert [x][1..] == [];
    }
  }

  /** Raising the bound by one adds the id at the old bound when it is stored and matches. */
  lemma MatchingIdsStep(appts: map<int, Appointment>, n: nat, c: Criteria)
    requires n > 0
    ensures |MatchingIds(appts, n, c)| == |MatchingIds(appts, n - 1, c)| + if n - 1 in appts && Matches(appts[n - 1], c) then 1 else 0
  {
  }

  /** Raising the bound by one appends the row at the old bound, if stored. */
  lemma RowsStep(appts: map<int, Appointment>, n: nat)
    requires n > 0
    ensures Rows(appts, n) == if n - 1 in appts then Rows(appts, n - 1) + [appts[n - 1]] else Rows(appts, n - 1)
  {
  }

  /** Every stored appointment that matches is among the rows the pages are cut from. */
  lemma MatchingIsListed(appts: map<int, Appointment>, next: nat, c: Criteria, id: int)
    requires id in appts && 0 <= id < next && Matches(appts[id], c)
    ensures appts[id] in Ordered(appts, next, c)
  {
    var matching := Filter(Rows(appts, next), a => Matches(a, c));
    var rows := Rows(appts, next);
    var k :| 0 <= k < |rows| && rows[k] == appts[id];
    assert appts[id] in matching;
    assert appts[id] in multiset(Ordered(appts, next, c));
  }

  /** The query of `GET /appointments`, as texts; `None` is an absent field. */
  datatype ListQuery = ListQuery(page: Option<string>, limit: Option<string>, clientId: Option<string>, state: Option<string>)

  /** The criteria of a query: `parseInt` of the client id and the upper-cased state, when given. */
  function QueryCriteria(q: ListQuery): (r: Reply<Criteria>)
    ensures r.Ok? ==> (Given(q.clientId) <==> r.value.clientId.Some?) && (Given(q.state) <==> r.value.state.Some?)
    ensures r.Ok? && Given(q.clientId) ==> ParseInt(q.clientId.value) == r.value.clientId
    ensures r.Ok? && Given(q.state) ==> StateName(r.value.state.value) == ToUpper(q.state.value)
    ensures Given(q.state) && ParseState(ToUpper(q.state.value)).None? ==> r.Err?
    ensures r.Ok? <==>
      (Given(q.clientId) ==> ParseInt(q.clientId.value).Some?) && (Given(q.state) ==> ParseState(ToUpper(q.state.value)).Some?)
    ensures r.Err? ==> r == Err(500, ServerError)
  {
    var client := if Given(q.clientId) then ParseInt(q.clientId.value) else None;
    var state := if Given(q.state) then ParseState(ToUpper(q.state.value)) else None;
    if Given(q.clientId) && client.None? then Err(500, ServerError)
    else if Given(q.state) && state.None? then Err(500, ServerError)
    else Ok(Criteria(client, state))
  }

  /** `getAppointments`: the administrators' listing, filtered by client and state. */
  function GetAppointments(appts: map<int, Appointment>, next: nat, q: ListQuery): (r: Reply<Listing>)
    ensures r.Ok? <==> ParseWindow(q.page, q.limit).Ok? && QueryCriteria(q).Ok?
    ensures r.Ok? ==> r == Ok(ListPage(appts, next, QueryCriteria(q).value, ParseWindow(q.page, q.limit).value))
  {
    match ParseWindow(q.page, q.limit)
    case Err(s, m) => Err(s, m)
    case Ok(w) =>
      match QueryCriteria(q)
      case Err(s, m) => Err(s, m)
      case Ok(c) => Ok(ListPage(appts, next, c, w))
  }

  /** `getMyAppointments`: the caller's own appointments, every state. */
  function GetMyAppointments(appts: map<int, Appointment>, next: nat, caller: Principal, page: Option<string>, limit: Option<string>): (r: Reply<Listing>)
    ensures r.Ok? <==> ParseWindow(page, limit).Ok?
    ensures r.Ok? ==> r.value == ListPage(appts, next, Criteria(Some(caller.userId), None), ParseWindow(page, limit).value)
    ensures r.Ok? ==> forall k :: 0 <= k < |r.value.rows| ==> r.value.rows[k].clientId == caller.userId
  {
    match ParseWindow(page, limit)
    case Err(s, m) => Err(s, m)
    case Ok(w) =>
      var c := Criteria(Some(caller.userId), None);
      ListPageRows(appts, next, c, w);
      Ok(ListPage(appts, next, c, w))
  }

  /** The state filter does not care how the state is spelt: upper-casing it changes nothing. */
  lemma StateFilterIgnoresCase(appts: map<int, Appointment>, next: nat, q: ListQuery, s: string)
    ensures GetAppointments(appts, next, q.(state := Some(ToUpper(s)))) == GetAppointments(appts, next, q.(state := Some(s)))
  {
    ToUpperIdempotent(s);
    assert |ToUpper(s)| == |s|;
  }

  // ---------------------------------------------------------------------------
  // One appointment
  // ---------------------------------------------------------------------------

  /**
   * `getAppointment`: the route id read by `parseInt` (NaN fails in the store: 500); 404
   * when missing, then 403 unless the caller is an administrator or the client.
   */
  function GetAppointment(appts: map<int, Appointment>, caller: Principal, routeId: string): (r: Reply<Appointment>)
    ensures ParseInt(routeId).None? ==> r == Err(500, GetFailed)
    ensures r.Ok? <==> ParseInt(routeId).Some? && ParseInt(routeId).value in appts && MayAccess(caller, appts[ParseInt(routeId).value])
    ensures r.Ok? ==> r.value == appts[ParseInt(routeId).value]
    ensures ParseInt(routeId).Some? && ParseInt(routeId).value !in appts ==> r == Err(404, NotFound)
    ensures ParseInt(routeId).Some? && ParseInt(routeId).value in appts && !MayAccess(caller, appts[ParseInt(routeId).value]) ==>
      r == Err(403, ViewDenied)
  {
    match ParseInt(routeId)
    case None => Err(500, GetFailed)
    case Some(id) =>
      if id !in appts then Err(404, NotFound)
      else if !IsAdmin(caller) && appts[id].clientId != caller.userId then Err(403, ViewDenied)
      else Ok(appts[id])
  }

  /** A customer never reads another client's appointment; an administrator reads every one. */
  lemma ReadAccess(appts: map<int, Appointment>, caller: Principal, id: nat)
    requires id in appts
    ensures caller.role == "CUSTOMER" && appts[id].clientId != caller.userId ==> GetAppointment(appts, caller, NatToString(id)) == Err(403, ViewDenied)
    ensures caller.role == "ADMIN" ==> GetAppointment(appts, caller, NatToString(id)) == Ok(appts[id])
  {
    NumberOfNatToString(id);
  }

  /** The body of `POST /appointments`; `sessionType` is `None` when absent. */
  datatype NewAppointment = NewAppointment(date: Day, start: Instant, end: Instant, serviceId: string, sessionType: Option<string>)

  /**
   * `createAppointment`: the record takes the caller's id as its client, never a body
   * value, the upper-cased session type and the default state PENDING. A missing session
   * type or a service id that does not parse fails with 500; a taken (client, day, start)
   * key, or an unknown client or service, with 400.
   */
  method CreateAppointment(db: Store.Db, caller: Principal, body: NewAppointment) returns (r: Reply<Appointment>)
    requires KeysBelow(db.appointments, db.nextAppointmentId) && KeysUnique(db.appointments)
    modifies db`appointments, db`nextAppointmentId
    ensures KeysBelow(db.appointments, db.nextAppointmentId) && KeysUnique(db.appointments)
    ensures r.Err? ==> db.appointments == old(db.appointments) && db.nextAppointmentId == old(db.nextAppointmentId)
    ensures r.Ok? ==>
      && db.appointments == old(db.appointments)[old(db.nextAppointmentId) := r.value]
      && db.nextAppointmentId == old(db.nextAppointmentId) + 1
      && r.value.clientId == caller.userId && r.value.state == PENDING
      && r.value.date == body.date && r.value.start == body.start && r.value.end == body.end
      && body.sessionType.Some? && r.value.sessionType == ToUpper(body.sessionType.value)
      && ParseInt(body.serviceId) == Some(r.value.serviceId)
    ensures body.sessionType.None? || ParseInt(body.serviceId).None? ==> r.Err? && r.status == 500
    ensures body.sessionType.Some? && ParseInt(body.serviceId).Some? ==>
      var a := Appointment(body.date, body.start, body.end, caller.userId, ParseInt(body.serviceId).value, PENDING, ToUpper(body.sessionType.value));
      if KeyTaken(old(db.appointments), a) then r == Err(400, DuplicateBooking)
      else if caller.userId !in db.users || a.serviceId !in db.services then r == Err(400, InvalidReference)
      else r == Ok(a)
  {
    if body.sessionType.None? {
      return Err(500, CreateFailed);
    }
    var service := ParseInt(body.serviceId);
    if service.None? {
      return Err(500, CreateFailed);
    }
    var a := Appointment(body.date, body.start, body.end, caller.userId, service.value, PENDING, ToUpper(body.sessionType.value));
    r := InsertAppointment(db, a);
  }

  /**
   * The insert itself: 400 when the unique key is taken (checked first), 400 when the
   * client or the service does not exist; otherwise `a` is stored under the next id.
   */
  method InsertAppointment(db: Store.Db, a: Appointment) returns (r: Reply<Appointment>)
    requires KeysBelow(db.appointments, db.nextAppointmentId) && KeysUnique(db.appointments)
    modifies db`appointments, db`nextAppointmentId
    ensures KeysBelow(db.appointments, db.nextAppointmentId) && KeysUnique(db.appointments)
    ensures r.Err? ==> db.appointments == old(db.appointments) && db.nextAppointmentId == old(db.nextAppointmentId)
    ensures KeyTaken(old(db.appointments), a) ==> r == Err(400, DuplicateBooking)
    ensures !KeyTaken(old(db.appointments), a) && (a.clientId !in db.users || a.serviceId !in db.services) ==>
      r == Err(400, InvalidReference)
    ensures !KeyTaken(old(db.appointments), a) && a.clientId in db.users && a.serviceId in db.services ==>
      && r == Ok(a)
      && db.appointments == old(db.appointments)[old(db.nextAppointmentId) := a]
      && db.nextAppointmentId == old(db.nextAppointmentId) + 1
  {
    if KeyTaken(db.appointments, a) {
      return Err(400, DuplicateBooking);
    }
    if a.clientId !in db.users || a.serviceId !in db.services {
      return Err(400, InvalidReference);
    }
    InsertKeepsUnique(db.appointments, db.nextAppointmentId, a);
    db.appointments := db.appointments[db.nextAppointmentId := a];
    db.nextAppointmentId := db.nextAppointmentId + 1;
    r := Ok(a);
  }

  // ---------------------------------------------------------------------------
  // Update
  // ---------------------------------------------------------------------------

  /** The body of `PUT /appointments/:id`; the times are `None` when absent or empty. */
  datatype UpdateBody = UpdateBody(
    date: Option<Day>,
    start: Option<Instant>,
    end: Option<Instant>,
    serviceId: Option<string>,
    state: Option<string>,
    sessionType: Option<string>)

  /** `dataToUpdate`: the columns to write. An inner `None` service id is a `parseInt` NaN. */
  datatype Patch = Patch(
    date: Option<Day>,
    start: Option<Instant>,
    end: Option<Instant>,
    serviceId: Option<Option<int>>,
    sessionType: Option<string>,
    state: Option<string>)

  const EmptyPatch := Patch(None, None, None, None, None, None)

  /** The body names no field the update reads. */
  predicate NothingGiven(body: UpdateBody) {
    body.date.None? && body.start.None? && body.end.None?
    && !Given(body.serviceId) && !Given(body.sessionType) && !Given(body.state)
  }

  /** `n` is `a` with exactly the given fields replaced: every field not given keeps its value. */
  predicate Respects(a: Appointment, body: UpdateBody, n: Appointment) {
    && n.clientId == a.clientId
    && n.date == (if body.date.Some? then body.date.value else a.date)
    && n.start == (if body.start.Some? then body.start.value else a.start)
    && n.end == (if body.end.Some? then body.end.value else a.end)
    && (if Given(body.serviceId) then ParseInt(body.serviceId.value) == Some(n.serviceId) else n.serviceId == a.serviceId)
    && (if Given(body.sessionType) then n.sessionType == ToUpper(body.sessionType.value) else n.sessionType == a.sessionType)
    && (if Given(body.state) then ParseState(ToUpper(body.state.value)) == Some(n.state) else n.state == a.state)
  }

  /** What the store accepts besides the key: the given service id and state parse, and the service exists. */
  predicate Storable(body: UpdateBody, services: map<int, Service>) {
    && (Given(body.serviceId) ==> ParseInt(body.serviceId.value).Some? && ParseInt(body.serviceId.value).value in services)
    && (Given(body.state) ==> ParseState(ToUpper(body.state.value)).Some?)
  }

  /** The key the updated record would have. */
  function UpdatedKey(a: Appointment, body: UpdateBody): Appointment {
    a.(date := if body.date.Some? then body.date.value else a.date,
       start := if body.start.Some? then body.start.value else a.start)
  }

  /** The store can read every value of the patch: the service id is a number and the state is in the enum. */
  predicate Readable(p: Patch) {
    p.serviceId != Some(None) && (p.state.Some? ==> ParseState(p.state.value).Some?)
  }

  /** `a` with the columns of a readable patch written over it. */
  function Applied(a: Appointment, p: Patch): (n: Appointment)
    requires Readable(p)
    ensures n.clientId == a.clientId
    ensures p.serviceId.Some? ==> p.serviceId.value == Some(n.serviceId)
    ensures p.state.Some? ==> ParseState(p.state.value) == Some(n.state)
  {
    Appointment(
      if p.date.Some? then p.date.value else a.date,
      if p.start.Some? then p.start.value else a.start,
      if p.end.Some? then p.end.value else a.end,
      a.clientId,
      if p.serviceId.Some? then p.serviceId.value.value else a.serviceId,
      if p.state.Some? then ParseState(p.state.value).value else a.state,
      if p.sessionType.Some? then p.sessionType.value else a.sessionType)
  }

  /**
   * The write of `prisma.appointment.update`: values are checked first (a NaN service id, a
   * state outside the enum: 500), then the unique key against the other rows, then the
   * service reference (400 each).
   */
  function WritePatch(a: Appointment, p: Patch, others: map<int, Appointment>, services: map<int, Service>): (r: Reply<Appointment>)
    ensures !Readable(p) ==> r == Err(500, ServerError)
    ensures Readable(p) && KeyTaken(others, Applied(a, p)) ==> r == Err(400, DuplicateUpdate)
    ensures Readable(p) && !KeyTaken(others, Applied(a, p)) && p.serviceId.Some? && p.serviceId.value.value !in services ==>
      r == Err(400, InvalidService)
    ensures r.Ok? <==>
      Readable(p) && !KeyTaken(others, Applied(a, p)) && (p.serviceId.Some? ==> p.serviceId.value.value in services)
    ensures r.Ok? ==> r.value.clientId == a.clientId && !KeyTaken(others, r.value)
    ensures r.Ok? && p.serviceId.Some? ==> p.serviceId.value == Some(r.value.serviceId) && r.value.serviceId in services
    ensures r.Ok? && p.state.Some? ==> ParseState(p.state.value) == Some(r.value.state)
  {
    if p.serviceId == Some(None) then Err(500, ServerError)
    else if p.state.Some? && ParseState(p.state.value).None? then Err(500, ServerError)
    else
      var n := Applied(a, p);
      if KeyTaken(others, n) then Err(400, DuplicateUpdate)
      else if p.serviceId.Some? && n.serviceId !in services then Err(400, InvalidService)
      else Ok(n)
  }

  /** `p` is the patch the handler fills from `body`: each given field, and nothing else. */
  predicate PatchOf(body: UpdateBody, p: Patch) {
    && p.date == body.date && p.start == body.start && p.end == body.end
    && p.serviceId == (if Given(body.serviceId) then Some(ParseInt(body.serviceId.value)) else None)
    && p.sessionType == (if Given(body.sessionType) then Some(ToUpper(body.sessionType.value)) else None)
    && p.state == (if Given(body.state) then Some(ToUpper(body.state.value)) else None)
  }

  /** The patch of a body is empty exactly when the body gives no field. */
  lemma PatchEmptyIffNothingGiven(body: UpdateBody, p: Patch)
    requires PatchOf(body, p)
    ensures p == EmptyPatch <==> NothingGiven(body)
  {
  }

  /**
   * Writing the patch of a body keeps every field not given, and it succeeds exactly when
   * the values are storable and the updated key is free among the other rows.
   */
  lemma WritePatchOfBody(a: Appointment, body: UpdateBody, p: Patch, others: map<int, Appointment>, services: map<int, Service>)
    requires PatchOf(body, p)
    ensures WritePatch(a, p, others, services).Ok? ==>
      Respects(a, body, WritePatch(a, p, others, services).value) && Storable(body, services)
    ensures WritePatch(a, p, others, services).Ok? <==> Storable(body, services) && !KeyTaken(others, UpdatedKey(a, body))
  {
    var r := WritePatch(a, p, others, services);
    if Storable(body, services) {
      KeyTakenByKey(others, Applied(a, p), UpdatedKey(a, body));
    }
  }

  /** Whether a key is taken depends on the client, the day and the start only. */
  lemma KeyTakenByKey(appts: map<int, Appointment>, x: Appointment, y: Appointment)
    requires x.clientId == y.clientId && x.date == y.date && x.start == y.start
    ensures KeyTaken(appts, x) <==> KeyTaken(appts, y)
  {
    if KeyTaken(appts, x) {
      var id :| id in appts && SameKey(appts[id], x);
      assert SameKey(appts[id], y);
    }
    if KeyTaken(appts, y) {
      var id :| id in appts && SameKey(appts[id], y);
      assert SameKey(appts[id], x);
    }
  }

  /** An administrator may move an appointment from any state to any state: there is no transition table. */
  lemma AnyStateToAnyState(a: Appointment, others: map<int, Appointment>, services: map<int, Service>, st: State)
    requires !KeyTaken(others, a)
    ensures WritePatch(a, EmptyPatch.(state := Some(StateName(st))), others, services) == Ok(a.(state := st))
  {
    ParseStateName(st);
  }

  /**
   * The handler's copy of the given fields into `dataToUpdate`, in order; a state from
   * anyone but an administrator stops it.
   */
  method FillPatch(body: UpdateBody, admin: bool) returns (data: Patch, denied: bool)
    ensures denied <==> Given(body.state) && !admin
    ensures !denied ==> PatchOf(body, data)
  {
    data := EmptyPatch;
    denied := false;
    if body.date.Some? { data := data.(date := body.date); }
    if body.start.Some? { data := data.(start := body.start); }
    if body.end.Some? { data := data.(end := body.end); }
    if Given(body.serviceId) { data := data.(serviceId := Some(ParseInt(body.serviceId.value))); }
    if Given(body.sessionType) { data := data.(sessionType := Some(ToUpper(body.sessionType.value))); }
    if Given(body.state) {
      if admin {
        data := data.(state := Some(ToUpper(body.state.value)));
      } else {
        denied := true;
      }
    }
  }

  /**
   * `updateAppointment`: the route id read by `parseInt` (NaN fails in the store: 500); 404
   * when missing, then 403 unless administrator or client; the given fields are copied into
   * the patch; a state from anyone but an administrator is refused with 403; an empty patch
   * with 400. Only a successful write changes the table, and it changes exactly that record,
   * keeping every field not given.
   */
  method UpdateAppointment(db: Store.Db, caller: Principal, routeId: string, body: UpdateBody) returns (r: Reply<Appointment>)
    requires KeysUnique(db.appointments)
    modifies db`appointments
    ensures KeysUnique(db.appointments)
    ensures r.Err? ==> db.appointments == old(db.appointments)
    ensures ParseInt(routeId).None? ==> r == Err(500, ServerError)
    ensures ParseInt(routeId).Some? ==> var id := ParseInt(routeId).value;
      && (r.Ok? ==> id in old(db.appointments) && db.appointments == old(db.appointments)[id := r.value])
      && (id !in old(db.appointments) ==> r == Err(404, NotFound))
      && (id in old(db.appointments) && !MayAccess(caller, old(db.appointments)[id]) ==> r == Err(403, UpdateDenied))
      && (id in old(db.appointments) && MayAccess(caller, old(db.appointments)[id]) && Given(body.state) && !IsAdmin(caller) ==>
            r == Err(403, StateAdminOnly))
      && (id in old(db.appointments) && MayAccess(caller, old(db.appointments)[id]) && NothingGiven(body) ==> r == Err(400, NoFields))
      && (r.Ok? ==> MayAccess(caller, old(db.appointments)[id]) && Respects(old(db.appointments)[id], body, r.value))
      && (r.Ok? ==> Storable(body, db.services) && !KeyTaken(old(db.appointments) - {id}, r.value))
      && ((&& id in old(db.appointments) && MayAccess(caller, old(db.appointments)[id]) && (Given(body.state) ==> IsAdmin(caller))
           && !NothingGiven(body) && Storable(body, db.services)
           && !KeyTaken(old(db.appointments) - {id}, UpdatedKey(old(db.appointments)[id], body))) ==> r.Ok?)
  {
    if ParseInt(routeId).None? {
      return Err(500, ServerError);
    }
    r := UpdateById(db, caller, ParseInt(routeId).value, body);
  }

  /** `updateAppointment` once the route id has been read. */
  method UpdateById(db: Store.Db, caller: Principal, id: int, body: UpdateBody) returns (r: Reply<Appointment>)
    requires KeysUnique(db.appointments)
    modifies db`appointments
    ensures KeysUnique(db.appointments)
    ensures r.Err? ==> db.appointments == old(db.appointments)
    ensures r.Ok? ==> id in old(db.appointments) && db.appointments == old(db.appointments)[id := r.value]
    ensures id !in old(db.appointments) ==> r == Err(404, NotFound)
    ensures id in old(db.appointments) && !MayAccess(caller, old(db.appointments)[id]) ==> r == Err(403, UpdateDenied)
    ensures id in old(db.appointments) && MayAccess(caller, old(db.appointments)[id]) && Given(body.state) && !IsAdmin(caller) ==>
      r == Err(403, StateAdminOnly)
    ensures id in old(db.appointments) && MayAccess(caller, old(db.appointments)[id]) && NothingGiven(body) ==> r == Err(400, NoFields)
    ensures r.Ok? ==> MayAccess(caller, old(db.appointments)[id]) && Respects(old(db.appointments)[id], body, r.value)
    ensures r.Ok? ==> Storable(body, db.services) && !KeyTaken(old(db.appointments) - {id}, r.value)
    ensures (&& id in old(db.appointments) && MayAccess(caller, old(db.appointments)[id]) && (Given(body.state) ==> IsAdmin(caller))
             && !NothingGiven(body) && Storable(body, db.services)
             && !KeyTaken(old(db.appointments) - {id}, UpdatedKey(old(db.appointments)[id], body))) ==> r.Ok?
  {
    if id !in db.appointments {
      return Err(404, NotFound);
    }
    var a := db.appointments[id];
    if !IsAdmin(caller) && a.clientId != caller.userId {
      return Err(403, UpdateDenied);
    }
    var data, denied := FillPatch(body, IsAdmin(caller));
    if denied {
      return Err(403, StateAdminOnly);
    }
    PatchEmptyIffNothingGiven(body, data);
    if data == EmptyPatch {
      return Err(400, NoFields);
    }
    var others := db.appointments - {id};
    r := WritePatch(a, data, others, db.services);
    WritePatchOfBody(a, body, data, others, db.services);
    if r.Ok? {
      ReplaceKeepsUnique(db.appointments, id, r.value);
      db.appointments := db.appointments[id := r.value];
    }
  }

  /**
   * `deleteAppointment`: administrators only, checked before the lookup; then the route id
   * read by `parseInt` (NaN fails in the store: 500); then 404; then exactly that record goes.
   */
  method DeleteAppointment(db: Store.Db, caller: Principal, routeId: string) returns (r: Reply<string>)
    modifies db`appointments
    ensures !IsAdmin(caller) ==> r == Err(403, DeleteAdminOnly) && db.appointments == old(db.appointments)
    ensures IsAdmin(caller) && ParseInt(routeId).None? ==> r == Err(500, DeleteFailed) && db.appointments == old(db.appointments)
    ensures IsAdmin(caller) && ParseInt(routeId).Some? ==> var id := ParseInt(routeId).value;
      && (id !in old(db.appointments) ==> r == Err(404, NotFound) && db.appointments == old(db.appointments))
      && (id in old(db.appointments) ==> r.Ok? && db.appointments == old(db.appointments) - {id})
  {
    if !IsAdmin(caller) {
      return Err(403, DeleteAdminOnly);
    }
    if ParseInt(routeId).None? {
      return Err(500, DeleteFailed);
    }
    var id := ParseInt(routeId).value;
    if id !in db.appointments {
      return Err(404, NotFound);
    }
    db.appointments := db.appointments - {id};
    r := Ok("Appointment deleted successfully");
  }
}
