/**
 * The user controller: the caller's profile, the administrator's paged user list,
 * reading, updating and deleting one user. E-mail addresses stay unique, and a user is
 * removed only once no appointment names them as client.
 */
module Users {
  import opened Wrappers
  import opened Records
  import opened Text
  import opened Paging
  import Store

  const NotFound := "User not found"
  const EmailInUse := "Email in use"
  const HasAppointments := "User has associated appointments"
  const CannotDeleteSelf := "Can't delete"
  const ServerError := "Server error"

  /** The `email` column is unique. */
  predicate EmailsUnique(users: map<int, User>) {
    forall i, j :: i in users && j in users && i != j ==> users[i].email != users[j].email
  }

  /** Some stored user other than `except` has the address `email`. */
  predicate EmailTaken(users: map<int, User>, email: string, except: Option<int>) {
    exists id :: id in users && (except.None? || id != except.value) && users[id].email == email
  }

  /** Every appointment's client is a stored user (the appointment's foreign key). */
  predicate ClientsStored(appts: map<int, Appointment>, users: map<int, User>) {
    forall id :: id in appts ==> appts[id].clientId in users
  }

  /** JavaScript truthiness of an optional text field: present and not empty. */
  predicate Given(s: Option<string>) {
    s.Some? && s.value != ""
  }

  // ---------------------------------------------------------------------------
  // Reading
  // ---------------------------------------------------------------------------

  /** The columns `getProfile` selects. */
  datatype Profile = Profile(id: int, name: string, email: string)

  /** The columns `getUser` and `getUsers` select. */
  datatype Summary = Summary(id: int, name: string, email: string, role: Role)

  function SummaryOf(users: map<int, User>, id: int): Summary
    requires id in users
  {
    Summary(id, users[id].name, users[id].email, users[id].role)
  }

  /** `getProfile`: the caller's own id, name and address; 404 when the caller's record is gone. */
  function GetProfile(users: map<int, User>, caller: Principal): (r: Reply<Profile>)
    ensures r.Ok? <==> caller.userId in users
    ensures r.Err? ==> r == Err(404, NotFound)
    ensures r.Ok? ==> r.value.id == caller.userId && r.value.name == users[caller.userId].name
                      && r.value.email == users[caller.userId].email
  {
    if caller.userId in users then Ok(Profile(caller.userId, users[caller.userId].name, users[caller.userId].email))
    else Err(404, NotFound)
  }

  /** `getUser`: the route id is `parseInt`-ed; a NaN fails in the store (500), an unknown id is 404. */
  function GetUser(users: map<int, User>, routeId: string): (r: Reply<Summary>)
    ensures ParseInt(routeId).None? ==> r == Err(500, ServerError)
    ensures r.Ok? <==> ParseInt(routeId).Some? && ParseInt(routeId).value in users
    ensures r.Ok? ==> r.value == SummaryOf(users, ParseInt(routeId).value)
    ensures ParseInt(routeId).Some? && ParseInt(routeId).value !in users ==> r == Err(404, NotFound)
  {
    match ParseInt(routeId)
    case None => Err(500, ServerError)
    case Some(id) => if id in users then Ok(SummaryOf(users, id)) else Err(404, NotFound)
  }

  /** Reading a user by the decimal form of its id finds that user. */
  lemma GetUserByItsId(users: map<int, User>, id: nat)
    requires id in users
    ensures GetUser(users, NatToString(id)) == Ok(SummaryOf(users, id))
  {
    NumberOfNatToString(id);
  }

  datatype UserPage = UserPage(page: int, limit: int, total: nat, totalPages: Option<int>, users: seq<Summary>)

  /** Every stored user, in id order. */
  function UserRows(users: map<int, User>, next: nat): (r: seq<Summary>)
    ensures ListsUsers(users, next, r)
  {
    if next == 0 then []
    else
      var rest := UserRows(users, next - 1);
      if next - 1 in users then
        var r := rest + [SummaryOf(users, next - 1)];
        StoredStep(users, next, rest);
        AscendingStep(users, next, rest);
        CompleteStep(users, next, rest);
        r
      else
        assert RowsComplete(users, next, rest) by {
          forall id | id in users && 0 <= id < next
            ensures exists k :: 0 <= k < |rest| && rest[k].id == id
          {
            assert id < next - 1;
          }
        }
        rest
  }

  /** Each row is the summary of a stored user with an id below `next`. */
  ghost predicate RowsStored(users: map<int, User>, next: nat, rows: seq<Summary>) {
    forall k :: 0 <= k < |rows| ==> rows[k].id in users && 0 <= rows[k].id < next && rows[k] == SummaryOf(users, rows[k].id)
  }

  ghost predicate RowsAscending(rows: seq<Summary>) {
    forall i, j :: 0 <= i < j < |rows| ==> rows[i].id < rows[j].id
  }

  /** No stored user with an id below `next` is missing from the rows. */
  ghost predicate RowsComplete(users: map<int, User>, next: nat, rows: seq<Summary>) {
    forall id :: id in users && 0 <= id < next ==> exists k :: 0 <= k < |rows| && rows[k].id == id
  }

  /** `rows` lists the stored users with ids below `next`, each once, in ascending id order. */
  ghost predicate ListsUsers(users: map<int, User>, next: nat, rows: seq<Summary>) {
    RowsStored(users, next, rows) && RowsAscending(rows) && RowsComplete(users, next, rows)
  }

  lemma StoredStep(users: map<int, User>, next: nat, rest: seq<Summary>)
    requires next > 0 && next - 1 in users && RowsStored(users, next - 1, rest)
    ensures RowsStored(users, next, rest + [SummaryOf(users, next - 1)])
  {
    var r := rest + [SummaryOf(users, next - 1)];
    forall k | 0 <= k < |r|
      ensures r[k].id in users && 0 <= r[k].id < next && r[k] == SummaryOf(users, r[k].id)
    {
      if k < |rest| {
        assert r[k] == rest[k];
      }
    }
  }

  lemma AscendingStep(users: map<int, User>, next: nat, rest: seq<Summary>)
    requires next > 0 && next - 1 in users && RowsStored(users, next - 1, rest) && RowsAscending(rest)
    ensures RowsAscending(rest + [SummaryOf(users, next - 1)])
  {
    var r := rest + [SummaryOf(users, next - 1)];
    forall i, j | 0 <= i < j < |r|
      ensures r[i].id < r[j].id
    {
      assert r[i] == rest[i];
      if j < |rest| {
        assert r[j] == rest[j];
      }
    }
  }

  lemma CompleteStep(users: map<int, User>, next: nat, rest: seq<Summary>)
    requires next > 0 && next - 1 in users && RowsComplete(users, next - 1, rest)
    ensures RowsComplete(users, next, rest + [SummaryOf(users, next - 1)])
  {
    var r := rest + [SummaryOf(users, next - 1)];
    forall id | id in users && 0 <= id < next
      ensures exists k :: 0 <= k < |r| && r[k].id == id
    {
      if id == next - 1 {
        assert r[|rest|].id == id;
      } else {
        var k :| 0 <= k < |rest| && rest[k].id == id;
        assert r[k] == rest[k];
      }
    }
  }

  /**
   * `getUsers`: `page` and `limit` as the appointment listings read them; one page of
   * the users, the total count and `ceil(total / limit)`.
   */
  function GetUsers(users: map<int, User>, next: nat, page: Option<string>, limit: Option<string>): (r: Reply<UserPage>)
    ensures r.Ok? <==> ParseWindow(page, limit).Ok?
    ensures r.Err? ==> r == Err(500, ServerError)
    ensures r.Ok? ==>
      var w := ParseWindow(page, limit).value;
      && r.value.page == w.page && r.value.limit == w.limit
      && r.value.total == |UserRows(users, next)|
      && r.value.totalPages == TotalPages(r.value.total, w.limit)
      && r.value.users == PageOf(UserRows(users, next), w.skip, w.limit)
  {
    match ParseWindow(page, limit)
    case Err(_, _) => Err(500, ServerError)
    case Ok(w) =>
      var rows := UserRows(users, next);
      Ok(UserPage(w.page, w.limit, |rows|, TotalPages(|rows|, w.limit), PageOf(rows, w.skip, w.limit)))
  }

  /** A page of users holds at most `limit` stored users, in ascending id order. */
  lemma UserPageRows(users: map<int, User>, next: nat, skip: nat, limit: int)
    ensures var p := PageOf(UserRows(users, next), skip, limit);
      && |p| <= Abs(limit)
      && (forall k :: 0 <= k < |p| ==> p[k].id in users && p[k] == SummaryOf(users, p[k].id))
      && (forall i, j :: 0 <= i < j < |p| ==> p[i].id < p[j].id)
  {
    PageOfListed(users, next, UserRows(users, next), skip, limit);
  }

  /** A page cut from stored, ascending rows is stored and ascending. */
  lemma PageOfListed(users: map<int, User>, next: nat, rows: seq<Summary>, skip: nat, limit: int)
    requires RowsStored(users, next, rows) && RowsAscending(rows)
    ensures RowsStored(users, next, PageOf(rows, skip, limit)) && RowsAscending(PageOf(rows, skip, limit))
  {
    var p := PageOf(rows, skip, limit);
    var s := PageStart(|rows|, skip, limit);
    forall k | 0 <= k < |p|
      ensures p[k].id in users && 0 <= p[k].id < next && p[k] == SummaryOf(users, p[k].id)
    {
      assert p[k] == rows[s + k];
    }
    forall i, j | 0 <= i < j < |p|
      ensures p[i].id < p[j].id
    {
      assert p[i] == rows[s + i] && p[j] == rows[s + j];
    }
  }

  // ---------------------------------------------------------------------------
  // Update
  // ---------------------------------------------------------------------------

  /** A request body; a field is `None` when absent. */
  datatype UserBody = UserBody(name: Option<string>, email: Option<string>, password: Option<string>, role: Option<string>)

  /** The body asks for a new address: one given whose trimmed form is not the current one. */
  predicate ChangesEmail(u: User, body: UserBody) {
    Given(body.email) && Trim(body.email.value) != u.email
  }

  /**
   * `n` is `u` with the given name and role, the trimmed new address when it changes, and
   * the new password when a non-empty one is given; every other column kept.
   */
  predicate UpdatedUser(u: User, body: UserBody, n: User) {
    && n.name == (if body.name.Some? then body.name.value else u.name)
    && (body.role.Some? ==> ParseRole(body.role.value) == Some(n.role))
    && (body.role.None? ==> n.role == u.role)
    && n.email == (if ChangesEmail(u, body) then Trim(body.email.value) else u.email)
    && n.password == (if Given(body.password) then Hashed(body.password.value) else u.password)
  }

  /**
   * `updateUser`: a route id that is not a number fails in the store (500); 404 when
   * missing; a new address that some user already has exactly as given is refused with
   * 400. The write then fails with 500 when the role is not a role name or the trimmed
   * address belongs to another user; otherwise exactly that record changes.
   */
  method UpdateUser(db: Store.Db, routeId: string, body: UserBody) returns (r: Reply<User>)
    requires EmailsUnique(db.users)
    modifies db`users
    ensures EmailsUnique(db.users)
    ensures r.Err? ==> db.users == old(db.users)
    ensures ParseInt(routeId).None? ==> r == Err(500, ServerError)
    ensures ParseInt(routeId).Some? && ParseInt(routeId).value !in old(db.users) ==> r == Err(404, NotFound)
    ensures (&& ParseInt(routeId).Some? && ParseInt(routeId).value in old(db.users)
             && ChangesEmail(old(db.users)[ParseInt(routeId).value], body)
             && EmailTaken(old(db.users), body.email.value, None)) ==> r == Err(400, EmailInUse)
    ensures r.Ok? ==>
      && ParseInt(routeId).Some? && ParseInt(routeId).value in old(db.users)
      && db.users == old(db.users)[ParseInt(routeId).value := r.value]
      && UpdatedUser(old(db.users)[ParseInt(routeId).value], body, r.value)
    ensures (&& ParseInt(routeId).Some? && ParseInt(routeId).value in old(db.users)
             && (body.role.Some? ==> ParseRole(body.role.value).Some?)
             && (ChangesEmail(old(db.users)[ParseInt(routeId).value], body) ==>
                   !EmailTaken(old(db.users), body.email.value, None)
                   && !EmailTaken(old(db.users), Trim(body.email.value), ParseInt(routeId))))
            ==> r.Ok?
  {
    var parsed := ParseInt(routeId);
    if parsed.None? {
      return Err(500, ServerError);
    }
    var id := parsed.value;
    if id !in db.users {
      return Err(404, NotFound);
    }
    var u := db.users[id];
    var updated := u;
    if body.name.Some? {
      updated := updated.(name := body.name.value);
    }
    var role := u.role;
    if body.role.Some? {
      var named := ParseRole(body.role.value);
      if named.Some? {
        role := named.value;
      }
    }
    updated := updated.(role := role);
    if Given(body.email) && Trim(body.email.value) != u.email {
      if EmailTaken(db.users, body.email.value, None) {
        return Err(400, EmailInUse);
      }
      updated := updated.(email := Trim(body.email.value));
    }
    if Given(body.password) {
      updated := updated.(password := Hashed(body.password.value));
    }
    if body.role.Some? && ParseRole(body.role.value).None? {
      return Err(500, ServerError);
    }
    if EmailTaken(db.users, updated.email, Some(id)) {
      return Err(500, ServerError);
    }
    PutKeepsEmailsUnique(db.users, id, updated);
    db.users := db.users[id := updated];
    r := Ok(updated);
  }

  lemma PutKeepsEmailsUnique(users: map<int, User>, id: int, u: User)
    requires EmailsUnique(users) && !EmailTaken(users, u.email, Some(id))
    ensures EmailsUnique(users[id := u])
  {
    var m := users[id := u];
    forall i, j | i in m && j in m && i != j
      ensures m[i].email != m[j].email
    {
      if i == id {
        assert j in users && j != id;
      } else if j == id {
        assert i in users && i != id;
      }
    }
  }

  /** Re-sending the current address, or none, keeps it; an empty password keeps the old one. */
  lemma SameEmailKeepsEmail(u: User, body: UserBody, n: User)
    requires UpdatedUser(u, body, n)
    requires body.email.None? || Trim(body.email.value) == u.email
    requires body.password.None? || body.password.value == ""
    ensures n.email == u.email && n.password == u.password
  {
  }

  // ---------------------------------------------------------------------------
  // Delete
  // ---------------------------------------------------------------------------

  /** Some appointment has `id` as its client. */
  predicate IsClient(appts: map<int, Appointment>, id: int) {
    exists k :: k in appts && appts[k].clientId == id
  }

  /** The refresh tokens left once every token of `id` is gone. */
  function TokensWithout(tokens: map<int, RefreshToken>, id: int): (r: map<int, RefreshToken>)
    ensures forall k :: k in r <==> k in tokens && tokens[k].userId != id
    ensures forall k :: k in r ==> r[k] == tokens[k]
  {
    map k | k in tokens && tokens[k].userId != id :: tokens[k]
  }

  /** Removing a user who is nobody's client keeps every appointment's client stored. */
  lemma NonClientRemovable(appts: map<int, Appointment>, users: map<int, User>, id: int)
    requires ClientsStored(appts, users) && !IsClient(appts, id)
    ensures ClientsStored(appts, users - {id})
  {
    forall k | k in appts
      ensures appts[k].clientId in users - {id}
    {
      assert appts[k].clientId != id;
    }
  }

  /**
   * `deleteUser`: a route id that is not a number fails (500); 400 while the user is
   * the client of any appointment (checked first); 400 for the caller's own id. Then
   * the user's refresh tokens go, and then the user; an unknown user fails at that
   * second step with 500, after the tokens are gone.
   */
  method DeleteUser(db: Store.Db, caller: Principal, routeId: string) returns (r: Reply<string>)
    requires ClientsStored(db.appointments, db.users)
    modifies db`users, db`refreshTokens
    ensures ClientsStored(db.appointments, db.users)
    ensures ParseInt(routeId).None? ==>
      r == Err(500, ServerError) && db.users == old(db.users) && db.refreshTokens == old(db.refreshTokens)
    ensures ParseInt(routeId).Some? ==> Removed(old(db.users), old(db.refreshTokens), db.appointments, caller, ParseInt(routeId).value,
                                               db.users, db.refreshTokens, r)
  {
    var parsed := ParseInt(routeId);
    if parsed.None? {
      return Err(500, ServerError);
    }
    r := RemoveUser(db, caller, parsed.value);
  }

  /**
   * The outcome of deleting user `id`: 400 and no change while the user is a client or
   * is the caller; otherwise the user's tokens are gone and then the user, or 500 when
   * there was no such user.
   */
  ghost predicate Removed(users: map<int, User>, tokens: map<int, RefreshToken>, appts: map<int, Appointment>,
                          caller: Principal, id: int,
                          users': map<int, User>, tokens': map<int, RefreshToken>, r: Reply<string>)
  {
    && (IsClient(appts, id) ==> r == Err(400, HasAppointments))
    && (!IsClient(appts, id) && id == caller.userId ==> r == Err(400, CannotDeleteSelf))
    && (r.Err? && r.status == 400 ==> users' == users && tokens' == tokens)
    && (!IsClient(appts, id) && id != caller.userId ==>
          && tokens' == TokensWithout(tokens, id)
          && (id in users ==> r.Ok? && users' == users - {id})
          && (id !in users ==> r == Err(500, ServerError) && users' == users))
  }

  /** The deletion once the route id has been read as the number `id`. */
  method RemoveUser(db: Store.Db, caller: Principal, id: int) returns (r: Reply<string>)
    requires ClientsStored(db.appointments, db.users)
    modifies db`users, db`refreshTokens
    ensures ClientsStored(db.appointments, db.users)
    ensures Removed(old(db.users), old(db.refreshTokens), db.appointments, caller, id, db.users, db.refreshTokens, r)
  {
    if IsClient(db.appointments, id) {
      return Err(400, HasAppointments);
    }
    if id == caller.userId {
      return Err(400, CannotDeleteSelf);
    }
    db.refreshTokens := TokensWithout(db.refreshTokens, id);
    if id !in db.users {
      return Err(500, ServerError);
    }
    NonClientRemovable(db.appointments, db.users, id);
    db.users := db.users - {id};
    r := Ok("Deleted succesfully");
  }
}
