/**
 * The service catalogue controller: the public listing of enabled services, reading one
 * service, and the administrator's create, update and delete, which keep service names
 * unique and never remove a service an appointment still books.
 */
module Services {
  import opened Wrappers
  import opened Records
  import opened Text
  import Store

  const NotFound := "Service not found"
  const NameRequired := "Name is required"
  const AlreadyExists := "Service already exists"
  const NameInUse := "Name already in use"
  const StillBooked := "Cannot delete service: there are appointments associated with it"
  const ServerError := "Server error"

  /** The `name` column is unique. */
  predicate NamesUnique(services: map<int, Service>) {
    forall i, j :: i in services && j in services && i != j ==> services[i].name != services[j].name
  }

  /** Some stored service other than `except` is called `name`. */
  predicate NameTaken(services: map<int, Service>, name: string, except: Option<int>) {
    exists id :: id in services && (except.None? || id != except.value) && services[id].name == name
  }

  /** Every appointment books a stored service (the appointment's foreign key). */
  predicate ServicesBooked(appts: map<int, Appointment>, services: map<int, Service>) {
    forall id :: id in appts ==> appts[id].serviceId in services
  }

  /** JavaScript truthiness of an optional text field: present and not empty. */
  predicate Given(s: Option<string>) {
    s.Some? && s.value != ""
  }

  // ---------------------------------------------------------------------------
  // Reading
  // ---------------------------------------------------------------------------

  /** `indexEnabledServices`: the services whose `disabled` flag is false, and no other. */
  function IndexEnabledServices(services: map<int, Service>): (r: map<int, Service>)
    ensures forall id :: id in r <==> id in services && !services[id].disabled
    ensures forall id :: id in r ==> r[id] == services[id]
  {
    map id | id in services && !services[id].disabled :: services[id]
  }

  /**
   * `indexService`: the route id read by `parseInt` (NaN fails in the store: 500); 404 for
   * an id no service has; also 404 for a disabled service unless the caller's role is ADMIN.
   */
  function IndexService(services: map<int, Service>, caller: Principal, routeId: string): (r: Reply<Service>)
    ensures ParseInt(routeId).None? ==> r == Err(500, ServerError)
    ensures r.Ok? <==> ParseInt(routeId).Some? && ParseInt(routeId).value in services
                       && (!services[ParseInt(routeId).value].disabled || caller.role == "ADMIN")
    ensures r.Ok? ==> r.value == services[ParseInt(routeId).value]
    ensures ParseInt(routeId).Some? && r.Err? ==> r == Err(404, NotFound)
  {
    match ParseInt(routeId)
    case None => Err(500, ServerError)
    case Some(id) =>
      if id !in services then Err(404, NotFound)
      else if services[id].disabled && caller.role != "ADMIN" then Err(404, NotFound)
      else Ok(services[id])
  }

  /** Anyone but an administrator reads exactly the services the public listing shows. */
  lemma ReadableIffListed(services: map<int, Service>, caller: Principal, routeId: string)
    requires caller.role != "ADMIN"
    ensures IndexService(services, caller, routeId).Ok? <==>
      ParseInt(routeId).Some? && ParseInt(routeId).value in IndexEnabledServices(services)
    ensures IndexService(services, caller, routeId).Ok? ==>
      IndexService(services, caller, routeId).value == IndexEnabledServices(services)[ParseInt(routeId).value]
  {
  }

  /** An administrator reads every stored service, disabled or not, by the decimal form of its id. */
  lemma AdministratorReadsAll(services: map<int, Service>, caller: Principal, id: nat)
    requires caller.role == "ADMIN" && id in services
    ensures IndexService(services, caller, NatToString(id)) == Ok(services[id])
  {
    NumberOfNatToString(id);
  }

  /** Unique names stay unique when a record is added or replaced under a name nobody else has. */
  lemma PutKeepsNamesUnique(services: map<int, Service>, id: int, s: Service)
    requires NamesUnique(services) && !NameTaken(services, s.name, Some(id))
    ensures NamesUnique(services[id := s])
  {
    var m := services[id := s];
    forall i, j | i in m && j in m && i != j
      ensures m[i].name != m[j].name
    {
      if i == id {
        assert j in services && j != id;
      } else if j == id {
        assert i in services && i != id;
      }
    }
  }

  // ---------------------------------------------------------------------------
  // Writing
  // ---------------------------------------------------------------------------

  /**
   * A request body; `description` is `Some(None)` for an explicit null, and `disabled`
   * is `None` when absent.
   */
  datatype ServiceBody = ServiceBody(name: Option<string>, description: Option<Option<string>>, disabled: Option<bool>)

  /**
   * `createService`: 400 for a missing or blank name; 400 when a service already has the
   * name exactly as given; otherwise one service is added, its name trimmed and its flag
   * `!!disabled`. A trimmed name another service has breaks the unique name and fails with 500.
   */
  method CreateService(db: Store.Db, body: ServiceBody) returns (r: Reply<int>)
    requires KeysBelow(db.services, db.nextServiceId) && NamesUnique(db.services)
    modifies db`services, db`nextServiceId
    ensures KeysBelow(db.services, db.nextServiceId) && NamesUnique(db.services)
    ensures r.Err? ==> db.services == old(db.services) && db.nextServiceId == old(db.nextServiceId)
    ensures !Given(body.name) || Trim(body.name.value) == "" ==> r == Err(400, NameRequired)
    ensures Given(body.name) && Trim(body.name.value) != "" && NameTaken(old(db.services), body.name.value, None) ==>
      r == Err(400, AlreadyExists)
    ensures (&& Given(body.name) && Trim(body.name.value) != "" && !NameTaken(old(db.services), body.name.value, None)
             && NameTaken(old(db.services), Trim(body.name.value), None)) ==> r == Err(500, ServerError)
    ensures r.Ok? ==>
      && r.value == old(db.nextServiceId) && db.nextServiceId == old(db.nextServiceId) + 1
      && body.name.Some? && !NameTaken(old(db.services), body.name.value, None)
      && db.services == old(db.services)[r.value := Service(Trim(body.name.value),
                                                          if body.description.Some? then body.description.value else None,
                                                          body.disabled == Some(true))]
    ensures (&& Given(body.name) && Trim(body.name.value) != ""
             && !NameTaken(old(db.services), body.name.value, None)
             && !NameTaken(old(db.services), Trim(body.name.value), None)) ==> r.Ok?
  {
    if !Given(body.name) || Trim(body.name.value) == "" {
      return Err(400, NameRequired);
    }
    var name := body.name.value;
    if NameTaken(db.services, name, None) {
      return Err(400, AlreadyExists);
    }
    var trimmed := Trim(name);
    if NameTaken(db.services, trimmed, None) {
      return Err(500, ServerError);
    }
    var description := if body.description.Some? then body.description.value else None;
    var s := Service(trimmed, description, body.disabled == Some(true));
    var id := db.nextServiceId;
    assert id !in db.services;
    PutKeepsNamesUnique(db.services, id, s);
    db.services := db.services[id := s];
    db.nextServiceId := id + 1;
    r := Ok(id);
  }

  /**
   * `updateService`: 404 when missing. A given name whose trimmed form differs from the
   * current name renames the service to the trimmed form, unless some service (the
   * service itself included) has the name exactly as given (400), or has its trimmed
   * form (the unique name breaks: 500). A given description or flag is written; every
   * other column keeps its value.
   */
  method UpdateService(db: Store.Db, routeId: string, body: ServiceBody) returns (r: Reply<Service>)
    requires NamesUnique(db.services)
    modifies db`services
    ensures NamesUnique(db.services)
    ensures r.Err? ==> db.services == old(db.services)
    ensures ParseInt(routeId).None? ==> r == Err(500, ServerError)
    ensures ParseInt(routeId).Some? ==> var id := ParseInt(routeId).value;
      && (id !in old(db.services) ==> r == Err(404, NotFound))
      && (id in old(db.services) && Renames(old(db.services)[id], body) && NameTaken(old(db.services), body.name.value, None) ==>
            r == Err(400, NameInUse))
      && ((id in old(db.services) && Renames(old(db.services)[id], body) && !NameTaken(old(db.services), body.name.value, None)
           && NameTaken(old(db.services), Trim(body.name.value), Some(id))) ==> r == Err(500, ServerError))
      && (r.Ok? ==> id in old(db.services) && db.services == old(db.services)[id := r.value])
      && (r.Ok? ==> Updated(old(db.services)[id], body, r.value))
      && (id in old(db.services) && (Renames(old(db.services)[id], body) ==>
            !NameTaken(old(db.services), body.name.value, None) && !NameTaken(old(db.services), Trim(body.name.value), Some(id)))
          ==> r.Ok?)
  {
    if ParseInt(routeId).None? {
      return Err(500, ServerError);
    }
    var id := ParseInt(routeId).value;
    if id !in db.services {
      return Err(404, NotFound);
    }
    var s := db.services[id];
    var updated := s;
    if Given(body.name) && Trim(body.name.value) != s.name {
      if NameTaken(db.services, body.name.value, None) {
        return Err(400, NameInUse);
      }
      updated := updated.(name := Trim(body.name.value));
    }
    if body.description.Some? {
      updated := updated.(description := body.description.value);
    }
    if body.disabled.Some? {
      updated := updated.(disabled := body.disabled.value);
    }
    if NameTaken(db.services, updated.name, Some(id)) {
      return Err(500, ServerError);
    }
    PutKeepsNamesUnique(db.services, id, updated);
    db.services := db.services[id := updated];
    r := Ok(updated);
  }

  /** The body asks for a new name: one given whose trimmed form is not the current name. */
  predicate Renames(s: Service, body: ServiceBody) {
    Given(body.name) && Trim(body.name.value) != s.name
  }

  /** `n` is `s` with the given columns of the body written and every other column kept. */
  predicate Updated(s: Service, body: ServiceBody, n: Service) {
    && n.name == (if Renames(s, body) then Trim(body.name.value) else s.name)
    && n.description == (if body.description.Some? then body.description.value else s.description)
    && n.disabled == (if body.disabled.Some? then body.disabled.value else s.disabled)
  }

  /** An update with an empty body, or one that repeats the current (trimmed) name, changes nothing. */
  lemma EmptyUpdateKeepsService(s: Service, n: Service)
    requires || Updated(s, ServiceBody(None, None, None), n)
             || (Trim(s.name) == s.name && Updated(s, ServiceBody(Some(s.name), None, None), n))
    ensures n == s
  {
  }

  /** A name given with surrounding blanks is stored trimmed, and a second trim changes nothing. */
  lemma RenamedServiceIsTrimmed(s: Service, body: ServiceBody, n: Service)
    requires Updated(s, body, n) && Renames(s, body)
    ensures Trim(n.name) == n.name
  {
    TrimIdempotent(body.name.value);
  }

  /**
   * `deleteService`: 404 when missing; 400 while any appointment books the service;
   * otherwise exactly that service goes. So no appointment is ever left without its service.
   */
  method DeleteService(db: Store.Db, routeId: string) returns (r: Reply<string>)
    requires ServicesBooked(db.appointments, db.services)
    modifies db`services
    ensures ServicesBooked(db.appointments, db.services)
    ensures ParseInt(routeId).None? ==> r == Err(500, ServerError) && db.services == old(db.services)
    ensures ParseInt(routeId).Some? ==> var id := ParseInt(routeId).value;
      && (id !in old(db.services) ==> r == Err(404, NotFound) && db.services == old(db.services))
      && (id in old(db.services) && (exists k :: k in db.appointments && db.appointments[k].serviceId == id) ==>
            r == Err(400, StillBooked) && db.services == old(db.services))
      && (r.Ok? <==> id in old(db.services) && !(exists k :: k in db.appointments && db.appointments[k].serviceId == id))
      && (r.Ok? ==> db.services == old(db.services) - {id})
  {
    if ParseInt(routeId).None? {
      return Err(500, ServerError);
    }
    var id := ParseInt(routeId).value;
    if id !in db.services {
      return Err(404, NotFound);
    }
    if exists k :: k in db.appointments && db.appointments[k].serviceId == id {
      return Err(400, StillBooked);
    }
    db.services := db.services - {id};
    r := Ok("Service deleted");
  }
}
