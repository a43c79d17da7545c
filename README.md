# Natursur scheduling and ordering rules, modelled in Dafny

Natursur is a booking and ordering web application for a natural-products practice.
Customers book one-hour sessions on open hours, administrators block days or hour
ranges on an admin calendar, and a chat assistant is meant to turn a customer's message
into an order of catalogue products (as wired, that path never reaches the save; see
below). This project models the rules at the heart of it and
proves properties of them:

- the available-hours listing of a day: two fixed working ranges, hourly slots, and the
  appointments and blocks that remove slots (`Availability`);
- the blocked-slot table, with its per-day invariants (`Availability`);
- the booking conflict guard that runs before an appointment is created or updated
  (`Conflict`);
- the appointment endpoints: listings with pagination, reading, creating, updating and
  deleting one appointment, with their owner and administrator checks (`Appointments`,
  `Paging`);
- the parser of the order text the extraction step returns, and the save function
  `saveExtractedOrder` with its loop that writes one order line per known product
  (`Orders`), as written, although no route calls it successfully;
- the service catalogue and user table endpoints, with their unique names and
  addresses and their delete guards (`Services`, `Users`);
- the authentication gates: bearer-token extraction, role equality, and the table from
  token errors to replies (`Auth`);
- the front-end rules: the block form of the admin calendar, its date guard, its payload
  and the grouping and titles of block events (`Calendar`); the past-hour filter and the
  confirmation of the customer booking page (`Booking`); and the service form's
  validation (`ServiceForm`).

The database is one object, `Store.Db`, whose tables are maps from ids to records and
whose auto-increment counters are integers. Endpoints that write the database are
methods that modify only the tables they touch. Reads are functions of the tables.
Times are whole minutes since 1 January 1970 UTC (`Instant`), and days are day numbers
(`Day`, midnight at `day * 1440`). A reply is `Ok(value)` or `Err(status, message)`;
a middleware lets the request pass (`Next`) or answers it (`Stop`). The JavaScript
built-ins the code relies on are modelled in `Text` (`trim`, `split`, `toUpperCase`,
`Number`, `isNaN`, `parseInt`) and `Seqs` (`filter`, `map`, a stable `sort`).

Files: `wrappers.dfy` (Option, Reply, Gate), `text.dfy`, `seqs.dfy`, `records.dfy`
(records and the `Store.Db` class), `paging.dfy`, `availability.dfy`, `conflict.dfy`,
`appointments.dfy`, `orders.dfy`, `services.dfy`, `users.dfy`, `auth.dfy`,
`calendar.dfy`, `booking.dfy`, `service_form.dfy`.

Five behaviours of the code worth knowing:

- `updateUser` puts `name` and `role` into the update as they come, and the store leaves a
  column alone when its value is `undefined`. So an absent name or role keeps the old value.
- The conflict guard compares against every stored appointment, whatever its state, while
  the listing skips CANCELED and NOT_ASSISTED ones. `Conflict.ListedSlotMayBeRefused`
  shows a listed slot that the guard refuses.
- `createBlock` tests overlap with closed ends, and the listing with half-open ones.
- The conflict guard reads both times of the body without checking that they are there.
  A missing or unreadable time is an Invalid Date, which the store refuses, so the guard
  answers 500. On the update route, where the guard runs right after authentication, every update that does not
  send both times therefore fails, a state-only change included.
- The chat order path never reaches `saveExtractedOrder`. `receiveMessage` calls
  `processMessage(message)` with one argument (backend/src/order/order.controller.js:8),
  while the function takes `(userId, message)` (backend/src/order/order.service.js:6).
  So `message` is undefined, `extractOrder` throws reading `message.message`
  (order.service.js:83), and the controller answers 500. `receiveOrder` has no route:
  the order router mounts only `/message` (backend/src/order/order.routes.js:7), under
  `/api/v1/orders` (backend/src/app.js:33). The front end posts to `/chat/message` and
  `/chat/order` (frontend/src/service/chatbot.service.js:5 and :25), which no router
  mounts. The `Orders` model states what the parser and the save would do if called.

The listings pass `(page - 1) * limit` and `limit` to the store unchecked. A negative `skip`
makes the store fail (500), while a negative `take` counts from the end of the ordered rows:
`Paging.PageOf` keeps up to `-limit` rows ending `skip` rows before the end, in their order.

## Model

| member | source | states |
|---|---|---|
| Availability.GenerateSlots | backend/src/availability/availability.controller.js:40-50 | The nested loops that fill `allHours` produce exactly the candidate slots of the ranges, range after range. |
| Availability.HourlySlots | backend/src/availability/availability.controller.js:42-49 | From hour h to hour e the inner loop pushes e - h slots of 60 minutes, the k-th starting k hours after the first. |
| Availability.WorkingDaySlots | backend/src/availability/availability.controller.js:9-50 | Every day has nine candidates, at 10, 11, 12, 13, 17, 18, 19, 20 and 21 o'clock, each 60 minutes long, ascending and pairwise disjoint. |
| Availability.GetAvailableHours | backend/src/availability/availability.controller.js:4-69 | The listing returns the "HH:mm" texts of the candidates that survive both filters, and at most nine of them. |
| Availability.FullDayBlockDominates | backend/src/availability/availability.controller.js:36-38 | A full-day block on the day empties the listing, whatever the appointments. |
| Availability.SlotListedIff | backend/src/availability/availability.controller.js:16-25 | Without a full-day block, a slot is listed exactly when it is a candidate, no live appointment of the day overlaps it (half-open), and no block of the day with both times overlaps it. |
| Availability.AvailableIsSubsequence | backend/src/availability/availability.controller.js:52-63 | The listed slots are an order-preserving subsequence of the candidates. |
| Availability.TouchingAppointmentKeepsSlot | backend/src/availability/availability.controller.js:54 | An appointment that ends when a slot starts, or starts when it ends, does not remove the slot. |
| Availability.BlocksOff | backend/src/availability/availability.controller.js:90 | `deleteMany` on a date keeps exactly the blocks of other dates. |
| Availability.CreateBlock | backend/src/availability/availability.controller.js:77-136 | 400 with no change on a fully blocked day. A full-day request replaces every block of the day with one full-day block with no times. A timed request that meets a timed block of the day, touching included, gets 400 with no change; otherwise exactly one block is added. Missing times give 500. The per-day invariants are kept. |
| Availability.DeleteBlock | backend/src/availability/availability.controller.js:138-149 | Exactly the block with the route id is removed. A route id that does not parse, or an unknown id, gives 500 and no change. The invariants are kept. |
| Availability.HalfOpenOverlapIsClosedOverlap | backend/src/availability/availability.controller.js:103-116 | Any window the listing counts as overlapping is also refused by block creation's closed test. |
| Availability.TouchingBlockRefused | backend/src/availability/availability.controller.js:110-111 | A timed request that starts when a stored timed block ends is refused. |
| Conflict.Excluded | backend/src/appointment/appointment.middleware.js:7-23 | With no route id nothing is excluded; otherwise the id parsed by `parseInt` is, and an id that does not parse fails. |
| Conflict.CheckAppointmentConflict | backend/src/appointment/appointment.middleware.js:3-38 | A missing or unreadable start or end time (an Invalid Date) gives 500. 400 when end <= start, before any lookup. A route id that does not parse gives 500. 409 exactly when a stored appointment other than the routed one overlaps the range (half-open). It passes exactly when none does. |
| Conflict.OverlapSymmetric | backend/src/appointment/appointment.middleware.js:17-18 | The overlap test does not depend on which range is the stored one. |
| Conflict.SameRangeConflicts | backend/src/appointment/appointment.middleware.js:16-31 | A range of positive length conflicts with a stored appointment of that exact range. |
| Conflict.TouchingIsNoConflict | backend/src/appointment/appointment.middleware.js:17-18 | Ranges that only touch do not overlap. |
| Conflict.OwnRangeIsNoConflict | backend/src/appointment/appointment.middleware.js:21-23 | An update routed to an appointment is never refused because of that appointment itself. |
| Conflict.ExclusionRemovesRecord | backend/src/appointment/appointment.middleware.js:21-27 | Excluding the routed id is the same as comparing against the table without it. |
| Conflict.StateIsIgnored | backend/src/appointment/appointment.middleware.js:16-27 | Changing a stored appointment's state never changes the guard's verdict. |
| Conflict.CanceledStillConflicts | backend/src/appointment/appointment.middleware.js:16-31 | A CANCELED appointment still refuses an overlapping booking with 409. |
| Conflict.PassedRangeIsNotBooked | backend/src/appointment/appointment.middleware.js:33 | A range the guard lets through is free for the slot listing on every day. |
| Conflict.ListedSlotMayBeRefused | backend/src/availability/availability.controller.js:22 | A slot that the listing offers, because its only appointment is CANCELED, is refused by the guard with 409. |
| Paging.ParseWindow | backend/src/appointment/appointment.controller.js:47-50 | Page and limit default to 1 and 10 and are read by `parseInt`; skip is (page - 1) * limit. The window fails with 500 exactly when a value does not parse or the skip is negative; a page of 0 with a limit of 0, or page 1 with a negative limit, is accepted. |
| Paging.FirstPageTakesAnyLimit | backend/src/appointment/appointment.controller.js:47-50 | Page 1 skips nothing, so any limit that reads, negative or zero included, is accepted and kept as it is. |
| Paging.TotalPages | backend/src/appointment/appointment.controller.js:84 | `Math.ceil(total / limit)`: null exactly when the limit is 0, not negative for a positive limit, not positive for a negative one. |
| Paging.TotalPagesIsCeiling | backend/src/appointment/appointment.controller.js:84 | For a positive limit, totalPages is the least number of pages of `limit` rows that hold every row. |
| Paging.TotalPagesOfNegativeLimit | backend/src/appointment/appointment.controller.js:84 | For a negative limit, totalPages is the ceiling of total / limit: the least count whose product with the limit is at most the total. |
| Paging.PageOf | backend/src/appointment/appointment.controller.js:63-64 | A page holds at most the limit's magnitude in rows, each the row at its start plus its place. A non-negative limit skips `skip` rows and keeps up to `limit`; a negative one takes up to `-limit` rows ending `skip` rows before the end, in their order. |
| Paging.PageKeepsOrder | backend/src/appointment/appointment.controller.js:63-64 | A page is drawn from the rows and keeps their order by any key. |
| Paging.PagesCoverRows | backend/src/appointment/appointment.controller.js:48-84 | Every row is on exactly the page its index points to, and that page is at most totalPages. |
| Appointments.InsertKeepsUnique | backend/src/appointment/appointment.controller.js:143-145 | Storing a record whose (client, day, start) key is free keeps the keys unique. |
| Appointments.ReplaceKeepsUnique | backend/src/appointment/appointment.controller.js:199-201 | Replacing a record by one whose key no other row has keeps the keys unique. |
| Appointments.Rows | backend/src/appointment/appointment.controller.js:61-62 | Every row is a stored appointment, and every stored appointment below the counter is a row. |
| Appointments.ListPage | backend/src/appointment/appointment.controller.js:60-86 | The total is the length of the matching rows, totalPages is `ceil(total / limit)`, and the rows are that window's page of the matching rows, newest day first. |
| Appointments.ListPageTotal | backend/src/appointment/appointment.controller.js:77 | The total equals the number of stored appointment ids below the counter whose appointment matches the criteria. |
| Appointments.MatchingIds | backend/src/appointment/appointment.controller.js:77 | The set counted holds exactly the stored ids below the counter whose appointment matches. |
| Appointments.ListPageRows | backend/src/appointment/appointment.controller.js:61-76 | A page holds at most the limit's magnitude in rows, each a stored appointment that matches the criteria, newest day first. |
| Appointments.OrderedRows | backend/src/appointment/appointment.controller.js:61-76 | The matching rows are stored appointments that match, newest day first. |
| Appointments.MatchingIsListed | backend/src/appointment/appointment.controller.js:61-77 | Every stored appointment that matches the criteria is among the rows the pages are cut from. |
| Appointments.QueryCriteria | backend/src/appointment/appointment.controller.js:52-58 | The client filter parses the given client id, the state filter upper-cases the given state; it succeeds exactly when every given filter reads, and an unknown state name or an id that does not parse gives 500. |
| Appointments.GetAppointments | backend/src/appointment/appointment.controller.js:45-91 | The administrators' listing pages through the appointments matching the query; its errors are those of the window and the criteria. |
| Appointments.GetMyAppointments | backend/src/appointment/appointment.controller.js:3-43 | The caller's listing succeeds exactly when page and limit read; it is then the listing of the criteria "client is the caller, any state", so it holds only the caller's own appointments. |
| Appointments.StateFilterIgnoresCase | backend/src/appointment/appointment.controller.js:56-58 | A state filter and its upper-cased form select the same rows. |
| Appointments.GetAppointment | backend/src/appointment/appointment.controller.js:93-120 | A route id that `parseInt` cannot read gives 500; then 404 when the appointment is missing; then 403 unless the caller is an administrator or its client; otherwise the record. |
| Appointments.ReadAccess | backend/src/appointment/appointment.controller.js:109-113 | A customer never reads another client's appointment (403), and an administrator reads every stored one by the decimal form of its id. |
| Appointments.CreateAppointment | backend/src/appointment/appointment.controller.js:122-149 | The client is always the caller, never a body value. The session type is upper-cased and the state is PENDING. A missing session type or a service id that does not parse gives 500. Only a successful insert changes the table. |
| Appointments.InsertAppointment | backend/src/appointment/appointment.controller.js:127-145 | A taken (client, day, start) key gives 400, then a missing client or service gives 400; otherwise the record is stored under the next id and the counter moves on by one. |
| Appointments.WritePatch | backend/src/appointment/appointment.controller.js:189-201 | The store's update: a state name or service id that does not parse gives 500, a taken key 400, an unknown service 400, in that order; it succeeds exactly when none of these applies, with the patched record. |
| Appointments.PatchEmptyIffNothingGiven | backend/src/appointment/appointment.controller.js:168-187 | The patch is empty exactly when the body gives none of the fields, which is the 400 case. |
| Appointments.WritePatchOfBody | backend/src/appointment/appointment.controller.js:168-192 | Writing the patch of a body keeps every field not given, and succeeds exactly when the values parse, the service exists and the new key is free among the other rows. |
| Appointments.KeyTakenByKey | backend/src/appointment/appointment.controller.js:199-200 | Whether a key is taken depends only on the client, the day and the start. |
| Appointments.AnyStateToAnyState | backend/src/appointment/appointment.controller.js:177-179 | An administrator can set any of the five states from any state: there is no transition table. |
| Appointments.FillPatch | backend/src/appointment/appointment.controller.js:168-183 | The handler stops exactly when a state is given by a non-administrator; otherwise the patch holds each given field, and nothing else. |
| Appointments.UpdateById | backend/src/appointment/appointment.controller.js:156-205 | Once the id is read: 404 when missing, 403 for another customer's appointment, 403 for a state from a non-administrator, 400 for no field. The write succeeds exactly when the given values are storable and the updated key is free among the other rows, and then only that record changes, keeping every field not given. |
| Appointments.UpdateAppointment | backend/src/appointment/appointment.controller.js:151-205 | A route id that does not parse gives 500; 404 before 403 for another customer's appointment; 403 for a state from a non-administrator; 400 for no field; then the write. Only a successful write changes the table, and it replaces exactly that record, keeping every field not given. |
| Appointments.DeleteAppointment | backend/src/appointment/appointment.controller.js:207-231 | 403 for a non-administrator before anything else; a route id that does not parse gives 500; 404 when missing; otherwise exactly that record goes. |
| Orders.ExtractedOrder | backend/src/order/order.service.js:88-89 | The result is null exactly when the trimmed model text is the sentinel; otherwise it is the trimmed text. |
| Orders.TrimmedPieces | backend/src/order/order.service.js:95 | One piece per piece of the text split at commas, in order, each trimmed. |
| Orders.Lines | backend/src/order/order.service.js:95 | The trimmed pieces with the empty ones dropped: every line is non-empty and trimmed. |
| Orders.LinesKeepOrder | backend/src/order/order.service.js:95 | The lines keep the order of the pieces. |
| Orders.LineEntry | backend/src/order/order.service.js:100-103 | A line gives an entry exactly when its trimmed product part and quantity part are non-empty and the quantity is a number; the value is `parseInt` of the quantity. |
| Orders.Entries | backend/src/order/order.service.js:99-104 | One possible entry per line, in order. |
| Orders.ParseExtractedOrder | backend/src/order/order.service.js:92-107 | The sentinel text, trimmed, gives the empty dictionary; otherwise the dictionary built from the lines' entries in order. |
| Orders.CollectLines | backend/src/order/order.service.js:97-104 | The loop writes each entry into the dictionary in turn, so it returns the dictionary of the entries. |
| Orders.CollectStep | backend/src/order/order.service.js:101-103 | One turn of the loop: an entry overwrites its product's value, and a line with no entry changes nothing. |
| Orders.CollectKeys | backend/src/order/order.service.js:99-104 | A product is in the dictionary exactly when some entry names it. |
| Orders.CollectLastWins | backend/src/order/order.service.js:102 | A product's value is the quantity of the last entry that names it. |
| Orders.FindProduct | backend/src/order/order.service.js:121-123 | The lookup finds a product with that name exactly when there is one. |
| Orders.SaveExtractedOrder | backend/src/order/order.service.js:109-146 | A missing or empty dictionary writes nothing. Otherwise exactly one order is created for the user, and its new lines are one per known product name, each with that name's quantity, each name once; unknown names are skipped. |
| Orders.LineNames | backend/src/order/order.service.js:130-136 | The product names of a range of order lines, in id order. |
| Orders.ProgressAdd | backend/src/order/order.service.js:130-136 | Writing the line of a known name keeps the save loop's invariant. |
| Orders.ProgressSkip | backend/src/order/order.service.js:125-128 | Skipping an unknown name keeps the save loop's invariant. |
| Orders.ProgressDone | backend/src/order/order.service.js:120-137 | Once every name has been handled, the new lines are exactly the known names, each once, and the older lines are kept. |
| Orders.AddLine | backend/src/order/order.service.js:121-136 | One turn of the save loop: the line of a known name is added under the next id, and an unknown name adds nothing. |
| Orders.AddLines | backend/src/order/order.service.js:120-137 | The save loop adds one line of the order per entry with a known product, under fresh ids, and keeps the older lines. |
| Services.IndexEnabledServices | backend/src/service/service.controller.js:16-28 | Exactly the services whose disabled flag is false. |
| Services.IndexService | backend/src/service/service.controller.js:30-50 | A route id that does not parse gives 500; 404 for an unknown id, and 404 for a disabled service unless the caller is ADMIN. |
| Services.ReadableIffListed | backend/src/service/service.controller.js:38-43 | Anyone but an administrator can read, by any route id, exactly the services the public listing shows. |
| Services.AdministratorReadsAll | backend/src/service/service.controller.js:40-45 | An administrator reads every stored service, disabled or not, by the decimal form of its id. |
| Services.PutKeepsNamesUnique | backend/src/service/service.controller.js:60-63 | Adding or replacing a record under a name no other service has keeps the names unique. |
| Services.CreateService | backend/src/service/service.controller.js:52-70 | 400 for a missing or blank name; 400 when the name as given exists. Otherwise exactly one service is added, with the trimmed name and the flag `!!disabled`; a trimmed name already in use gives 500. Names stay unique. |
| Services.UpdateService | backend/src/service/service.controller.js:72-97 | A route id that does not parse gives 500; 404 when missing. A given name whose trimmed form is new renames the service, unless the name as given (400) or its trimmed form (500) is taken. A given description or flag is written; every other column keeps its value. |
| Services.EmptyUpdateKeepsService | backend/src/service/service.controller.js:80-90 | An empty body, or one that repeats the current name, changes nothing. |
| Services.RenamedServiceIsTrimmed | backend/src/service/service.controller.js:81-84 | A renamed service's name is trimmed, so trimming it again changes nothing. |
| Services.DeleteService | backend/src/service/service.controller.js:99-118 | A route id that does not parse gives 500; 404 when missing; 400 while an appointment books the service; otherwise exactly that service goes, and every appointment keeps its service. |
| Users.GetProfile | backend/src/user/user.controller.js:4-24 | The caller's own id, name and address, or 404 when the caller's record is gone. |
| Users.GetUser | backend/src/user/user.controller.js:56-79 | A route id that does not parse gives 500, an unknown id 404; otherwise that user's id, name, address and role. |
| Users.GetUserByItsId | backend/src/user/user.controller.js:62-63 | Reading a user by the decimal form of its id finds that user. |
| Users.UserRows | backend/src/user/user.controller.js:35-39 | The summaries of the stored users, each once, in ascending id order. |
| Users.StoredStep | backend/src/user/user.controller.js:35-39 | Adding the summary of the next stored user keeps every row a stored user's summary. |
| Users.AscendingStep | backend/src/user/user.controller.js:35-39 | Adding the summary of the next stored user keeps the rows in ascending id order. |
| Users.CompleteStep | backend/src/user/user.controller.js:35-39 | Adding the summary of the next stored user keeps every stored user below the bound listed. |
| Users.GetUsers | backend/src/user/user.controller.js:27-54 | One page of the users, the total count and `ceil(total / limit)` pages, with the same page and limit reading as the appointment listings. |
| Users.UserPageRows | backend/src/user/user.controller.js:35-39 | A page of users holds at most the limit's magnitude in stored users, in ascending id order. |
| Users.UpdateUser | backend/src/user/user.controller.js:81-131 | A route id that does not parse gives 500; 404 when missing; a changed address that some user has exactly as given gives 400. Otherwise name and role are written when supplied, the trimmed address when it changes, and the password when a non-empty one is given. An unknown role or a trimmed address in use gives 500. Only that record changes. |
| Users.PutKeepsEmailsUnique | backend/src/user/user.controller.js:100-111 | Replacing a record with one whose address no other user has keeps the addresses unique. |
| Users.SameEmailKeepsEmail | backend/src/user/user.controller.js:100-116 | Re-sending the current address, or none, keeps it; an empty password keeps the old one. |
| Users.TokensWithout | backend/src/user/user.controller.js:147-149 | Exactly the refresh tokens of other users are kept. |
| Users.NonClientRemovable | backend/src/user/user.controller.js:137-143 | Removing a user who is nobody's client leaves every appointment with a stored client. |
| Users.DeleteUser | backend/src/user/user.controller.js:133-160 | A route id that does not parse gives 500 and no change; otherwise the outcome of the deletion of that id. |
| Users.RemoveUser | backend/src/user/user.controller.js:137-155 | 400 and no change while the user is any appointment's client (checked first), or is the caller. Otherwise the user's refresh tokens go, and then the user, or 500 when there is no such user, after the tokens are gone. |
| Auth.HandleJwtError | backend/src/auth/auth.error.js:1-12 | TokenExpiredError gives 401 TOKEN_EXPIRED, JsonWebTokenError 403 INVALID_TOKEN, NotBeforeError 403 TOKEN_NOT_ACTIVE, and any other name 500 AUTH_ERROR. |
| Auth.JwtCodesDistinct | backend/src/auth/auth.error.js:2-11 | The three library errors get three distinct codes, none of them the catch-all code. |
| Auth.BearerToken | backend/src/auth/auth.middleware.js:6-7 | The token is the second space-separated word of the header, when there is a header and that word is not empty. |
| Auth.NoSpaceNoToken | backend/src/auth/auth.middleware.js:7-11 | A header with no space in it carries no token. |
| Auth.BearerHeaderYieldsToken | backend/src/auth/auth.middleware.js:7 | A header `<scheme> <token>` yields the token, for any scheme and token without spaces. |
| Auth.RequiresAuth | backend/src/auth/auth.middleware.js:5-20 | 401 without a token; otherwise the decoded payload passes, and a verification failure is answered by the error table without passing. |
| Auth.CheckRole | backend/src/auth/auth.middleware.js:22-31 | Passes exactly the callers whose role string equals the route's role, and gives 403 to anyone else. |
| Auth.OneRoleAtMost | backend/src/auth/auth.middleware.js:25 | There is no hierarchy of roles: a caller passes the check of at most one role. |
| Auth.AdministratorIsNotCustomer | backend/src/auth/auth.middleware.js:25-27 | An administrator is refused on a customer-only route. |
| Calendar.Issues | frontend/src/pages/admin/Calendar.jsx:16-45 | A form that does not block the whole day is refused unless it names both times, and then unless the end hour, read before ':', is after the start hour. A whole-day form skips both time rules, and at most the missing start date is reported. |
| Calendar.StartHourOptions | frontend/src/pages/admin/Calendar.jsx:346-350 | Fourteen start options. |
| Calendar.EndHourOptions | frontend/src/pages/admin/Calendar.jsx:367-371 | Fourteen end options. |
| Calendar.OptionLabels | frontend/src/pages/admin/Calendar.jsx:346-371 | Start option i is the label `<i + 8>:00` and end option j the label `<j + 9>:00`, so the starts run from 8 to 21 and the ends from 9 to 22. |
| Calendar.HourOfLabel | frontend/src/pages/admin/Calendar.jsx:37-38 | The second rule reads the hour back from the label it was built from. |
| Calendar.OptionsPass | frontend/src/pages/admin/Calendar.jsx:25-45 | A timed form filled from start option i and end option j passes both rules exactly when j >= i. |
| Calendar.SamePlaceOptionsPass | frontend/src/pages/admin/Calendar.jsx:35-45 | Start and end options at the same place in their lists always pass. |
| Calendar.HandleDateClick | frontend/src/pages/admin/Calendar.jsx:134-155 | A Saturday, a Sunday or a day before today is refused with an alert. Otherwise an administrator gets a timed form whose start and end dates are the clicked date, and anyone else goes to that day's availability. |
| Calendar.OpenedFormNeedsTimes | frontend/src/pages/admin/Calendar.jsx:25-33 | The form a click opens cannot be sent until both times are chosen. |
| Calendar.OnSubmitPayload | frontend/src/pages/admin/Calendar.jsx:210-224 | The payload has the start date and flag as they are, null for an empty reason, the end date only when given and different from the start date, and the two times on the start date only for a timed block. |
| Calendar.ClickToPayload | frontend/src/pages/admin/Calendar.jsx:134-224 | The form a click opens, given options i <= j, sends a timed block of that one day with those hours, no end date and no reason. |
| Calendar.AppointmentEvents | frontend/src/pages/admin/Calendar.jsx:68-82 | One event `apt-<id>` per appointment, in order, titled with the start hour and the client's name. |
| Calendar.FindGroup | frontend/src/pages/admin/Calendar.jsx:89 | Finds the group of a key exactly when there is one. |
| Calendar.WithKey | frontend/src/pages/admin/Calendar.jsx:87-91 | Every block it selects is one of the blocks, with that key. |
| Calendar.AddBlockShape | frontend/src/pages/admin/Calendar.jsx:89-90 | A block joins the group of its key, and a new group opens at the end when the key is new. |
| Calendar.GroupKeysDistinct | frontend/src/pages/admin/Calendar.jsx:86-91 | No two groups share a key. |
| Calendar.GroupsCover | frontend/src/pages/admin/Calendar.jsx:86-91 | Every block's key has its group. |
| Calendar.GroupMembers | frontend/src/pages/admin/Calendar.jsx:86-91 | A group holds exactly the blocks of its key, in the order they came. |
| Calendar.NoKeyNoMembers | frontend/src/pages/admin/Calendar.jsx:88-90 | A key that no block has has no members. |
| Calendar.InOwnGroup | frontend/src/pages/admin/Calendar.jsx:88-90 | Every block is among the members of its own key. |
| Calendar.ExactlyOneGroup | frontend/src/pages/admin/Calendar.jsx:85-93 | Every block lies in exactly one group, the group of its key. |
| Calendar.SizeOfUpdate | frontend/src/pages/admin/Calendar.jsx:90 | Adding a block to a group adds one to the groups' total size. |
| Calendar.GroupsSize | frontend/src/pages/admin/Calendar.jsx:86-91 | The groups together hold every block once. |
| Calendar.BlockEventsSize | frontend/src/pages/admin/Calendar.jsx:93-124 | The block events are one per member of the groups. |
| Calendar.EventCount | frontend/src/pages/admin/Calendar.jsx:63-127 | The calendar shows one event per appointment, then one per block, each tagged with its record's id. |
| Calendar.GroupEvents | frontend/src/pages/admin/Calendar.jsx:94-123 | A group gives one `block-<id>` event per member, in day order. |
| Calendar.GroupTitles | frontend/src/pages/admin/Calendar.jsx:94-112 | In a group's events, in day order: a whole-day block reads BLOQUEADO; a timed block alone reads "Bloqueo S h - E h"; otherwise the first reads "Desde S h", the last "Hasta E h", and those between nothing, with the group's own hours. |
| Calendar.SharedKeyTitles | frontend/src/pages/admin/Calendar.jsx:97-112 | The same titles for any blocks that share one key. |
| Calendar.NonEmptyGroups | frontend/src/pages/admin/Calendar.jsx:89-90 | A group is opened by a block, so it is never empty. |
| Calendar.LoadCalendarData | frontend/src/pages/admin/Calendar.jsx:63-127 | The events array is the appointment events followed by each group's events, groups in the order their keys first appear. |
| Calendar.BlockEventsSnoc | frontend/src/pages/admin/Calendar.jsx:93-124 | Handling one more group appends its events. |
| Calendar.PushAppointmentEvents | frontend/src/pages/admin/Calendar.jsx:68-82 | The `forEach` loop pushes exactly the appointment events. |
| Calendar.GroupBlocks | frontend/src/pages/admin/Calendar.jsx:86-91 | The `forEach` loop builds exactly the groups of the blocks. |
| Calendar.PushGroupEvents | frontend/src/pages/admin/Calendar.jsx:94-123 | Sorting one group by day and pushing one event per member gives the group's events. |
| Booking.ShownHours | frontend/src/pages/customer/Availability.jsx:54-75 | On any day but today the offered hours are shown unchanged. On today the shown hours are the offered hours filtered, in order, to those whose hour is later, or whose hour is the current one and whose minutes are later. The result is always an order-preserving subsequence of the offered hours. |
| Booking.Pad2Reads | frontend/src/pages/customer/Availability.jsx:67 | A two-digit field from the "HH:mm" texts holds no ':' and reads back as its number. |
| Booking.SplitPair | frontend/src/pages/customer/Availability.jsx:67 | Two pieces with no ':' joined by one ':' split back into the two pieces. |
| Booking.ClockText | frontend/src/pages/customer/Availability.jsx:67 | The text of an hour and minutes, both below 100, reads back as those numbers. |
| Booking.ClockParts | frontend/src/pages/customer/Availability.jsx:67 | A slot text as the server formats it splits into its hour and minutes, and reads back as them. |
| Booking.TodayDropsTheCurrentSlot | frontend/src/pages/customer/Availability.jsx:69-71 | On today, an offered slot at the current hour and minute is dropped, and one of a later hour is kept. |
| Booking.HandleConfirm | frontend/src/pages/customer/Availability.jsx:90-103 | With no hour chosen only the prompt shows and no request is sent. Otherwise the request has the route's date as it is, `parseInt` of the hour before ':', and `parseInt` of the treatment. |
| Booking.ConfirmSendsSlotHour | frontend/src/pages/customer/Availability.jsx:99-103 | Confirming a slot text as the server formats it sends that slot's hour. |
| ServiceForm.NameError | frontend/src/components/ServiceFormModal.jsx:43-47 | The name is required when it is blank after trimming; otherwise it is refused when longer than 100 characters before trimming; otherwise there is no error. |
| ServiceForm.DescriptionError | frontend/src/components/ServiceFormModal.jsx:49-53 | The same rules for the description, with a limit of 500 characters. |
| ServiceForm.FormErrorsEmptyIff | frontend/src/components/ServiceFormModal.jsx:41-56 | No error is recorded exactly when both fields are non-blank and within their lengths. |
| ServiceForm.FormErrorsPerField | frontend/src/components/ServiceFormModal.jsx:41-53 | Each field's recorded error is its own rule's error, and the checkbox never has one. |
| ServiceForm.ValidNamePassesServer | frontend/src/components/ServiceFormModal.jsx:43-44 | A name the form lets through also passes the server's required-name check. |
| ServiceForm.Form.constructor | frontend/src/components/ServiceFormModal.jsx:4-9 | A new form is empty, unchecked and has no errors. |
| ServiceForm.Form.Load | frontend/src/components/ServiceFormModal.jsx:11-26 | Opening the form loads the edited service's values (a missing description reads as "") or empties the form, and clears every error. |
| ServiceForm.Form.HandleChange | frontend/src/components/ServiceFormModal.jsx:28-38 | The changed field takes its new value, a shown error of that field becomes null, and every other field and error stays as it was. |
| ServiceForm.Form.Validate | frontend/src/components/ServiceFormModal.jsx:40-57 | The errors shown become exactly the errors the rules record, and the result is true exactly when there are none. |
| ServiceForm.Form.HandleSubmit | frontend/src/components/ServiceFormModal.jsx:59-65 | The form's values are handed on exactly when validation records no error, and not otherwise. |
| Records.ParseState | backend/src/appointment/appointment.controller.js:177-179 | A text the state column accepts is the name of the state it stores. |
| Records.ParseStateName | backend/src/appointment/appointment.controller.js:179 | Every state's name is accepted as that state, so the column accepts exactly the five names. |
| Records.ParseRole | backend/src/user/user.controller.js:95-98 | A text the role column accepts is the name of the role it stores. |
| Text.TrimStart | backend/src/service/service.controller.js:56 | The whitespace at the front is dropped, and the rest is kept. |
| Text.TrimEnd | backend/src/service/service.controller.js:56 | The whitespace at the end is dropped, and the rest is kept. |
| Text.Trim | backend/src/service/service.controller.js:56 | `trim()` is no longer than the text, and it starts and ends with a character that is not whitespace. |
| Text.TrimShape | backend/src/order/order.service.js:95 | `trim()` returns the slice of the text left once the whitespace at both ends is cut; it starts and ends with non-whitespace. |
| Text.TrimEmptyIffBlank | backend/src/service/service.controller.js:56 | A text trims to empty exactly when it is all whitespace. |
| Text.TrimIdempotent | backend/src/service/service.controller.js:63 | Trimming a trimmed text changes nothing. |
| Text.Split | backend/src/order/order.service.js:95-100 | `split` gives at least one piece, no piece holds the separator, and a text without the separator is one piece. |
| Text.JoinSplit | backend/src/order/order.service.js:95 | Joining the pieces with the separator gives the text back. |
| Text.SplitJoin | backend/src/order/order.service.js:100 | Pieces without the separator, joined by it, split back into the same pieces. |
| Text.ToUpper | backend/src/appointment/appointment.controller.js:57 | Upper-casing keeps the length, leaves no lower-case letter, and changes only lower-case letters. |
| Text.ToUpperIdempotent | backend/src/appointment/appointment.controller.js:57 | Upper-casing keeps the length, and an upper-cased text upper-cases to itself. |
| Text.NumberOf | backend/src/order/order.service.js:101 | `Number` reads a blank text as 0 and a run of digits, around whitespace, as its value; any non-blank text it reads ends with a digit. |
| Text.ParseInt | backend/src/appointment/appointment.controller.js:95 | `parseInt` of a blank text is NaN, a run of digits reads as its value, and a negative result needs a leading minus sign. |
| Text.NatToString | backend/src/appointment/appointment.middleware.js:22 | The decimal text of a number is digits only and reads back as the number. |
| Text.ParseIntAgreesWithNumber | backend/src/order/order.service.js:101-102 | On a non-blank text that `isNaN` accepts, `parseInt` reads the same value as `Number`. |
| Text.NumberOfNatToString | backend/src/appointment/appointment.middleware.js:22 | The decimal text of a number reads back as that number through `Number` and `parseInt`. |
| Text.ParseIntOfSignedDigits | backend/src/appointment/appointment.controller.js:49 | `parseInt` reads a minus sign followed by digits as the negated value of the digits. |
| Paging.OmittedPageIsFirstPage | backend/src/appointment/appointment.controller.js:47-48 | A listing request without a page gets the same window, or the same error, as one that asks for page "1", whatever its limit. |
| Seqs.Filter | backend/src/availability/availability.controller.js:52-63 | `filter` keeps exactly the elements that pass the test, and no more elements than it started with. |
| Seqs.FilterIsSubsequence | backend/src/availability/availability.controller.js:52-63 | What `filter` keeps is an order-preserving subsequence of its input. |
| Seqs.FilterAppend | backend/src/availability/availability.controller.js:52-63 | Filtering a concatenation filters each part. |
| Seqs.SortBy | frontend/src/pages/admin/Calendar.jsx:94 | The sort of a group by day is sorted and a permutation of the group. |
| Seqs.SortByIsStable | frontend/src/pages/admin/Calendar.jsx:94 | The sort is stable: the elements of any one key keep the order they had. |
| Seqs.InsertKeepsTies | frontend/src/pages/admin/Calendar.jsx:94 | Inserting an element puts it in front of the elements of its own key and leaves the others' order alone. |

## Left out

- The database engine: Prisma's queries and transactions are modelled as operations on the maps. The race between a check and the following write is not modelled.
- Store errors are modelled by the constraint each write depends on. The unique keys are the service name, the user address and the appointment (client, day, start). The foreign keys are the appointment's client and service. Where a write can fail on two constraints, the unique key is assumed to be checked first.
- Dates and date-fns: `startOfDay`/`endOfDay`, `toISOString`, time zones and the local versus UTC reading of dates are replaced by whole minutes and day numbers. `getHours()` of a range that ends at 24 is not modelled.
- Availability.CreateBlock: the request's end date is never read in the code, and the times are taken as already-parsed instants. An invalid date text is not modelled, and neither is a JSON `null` time, which `new Date(null)` reads as the epoch and the store keeps; the model treats every missing time as absent (500).
- Appointments.CreateAppointment: the date and times arrive as already-parsed instants. A text that `new Date` reads as an Invalid Date, which makes the store's write fail with 500, is not modelled.
- Appointments.InsertAppointment: takes the same already-parsed instants, so the 500 of an Invalid Date written to the store is not modelled.
- Appointments.CreateAppointment: the body's service id is unbounded in the model. A `parseInt(serviceId)` above 2147483647 fails the store's validation of its 32-bit column with 500; the model answers 400 InvalidReference when no service has that id.
- Appointments.InsertAppointment: the same gap. A service id above 2147483647 gives 500 in the store, while the model's insert answers 400 InvalidReference.
- Appointments.WritePatch: a patched service id above 2147483647 fails the store's validation with 500, before any key or reference is checked. The model answers 400 InvalidService, or 400 DuplicateUpdate when the new key is taken.
- Appointments.UpdateById: inherits the WritePatch gap. An update whose service id is above 2147483647 answers 500 in the source and 400 in the model.
- Appointments.UpdateAppointment: a given date or time is an already-parsed instant, so the 500 of an Invalid Date in the update is not modelled (the conflict guard on the same route does model it).
- Orders.SaveExtractedOrder: quantities are unbounded in the model. A known product whose quantity is outside the 32-bit range makes `orderProduct.create` throw mid-loop (backend/src/order/order.service.js:130-136), after the order and the earlier lines are written; they stay written, and the caller answers 500. The model writes every known line and answers Ok.
- Orders.AddLines: the same gap. The loop stops at the first known line whose quantity the store refuses, and the model's loop does not.
- Orders.AddLine: always adds a known name's line. A quantity outside the 32-bit range makes the store's create throw instead, and that path is not modelled.
- The OpenAI requests (`processMessage` and the request inside `extractOrder`) are foreign calls; `Orders.ExtractedOrder` starts from the model's output text.
- bcrypt and jsonwebtoken: token verification is a parameter of `Auth.RequiresAuth`, and a password is stored as the text given. Users.UpdateUser does not model hashing.
- The express-validator and zod schema files, and the route wiring (the order of middlewares, the delete route without an id), are outside this model.
- Text.ParseInt: integers are unbounded. `parseInt` loses exactness above 2^53, and that is not modelled.
- Users.GetUser: the store's id columns are 32-bit integers and the model's ids are unbounded. A route id above 2147483647 fails in the store with 500, and the model answers 404 instead.
- Users.UpdateUser: a route id above 2147483647 fails in the store with 500; the model answers 404.
- Users.DeleteUser: a route id above 2147483647 fails in the store's first query with 500; the model reaches the same 500 only when no user has that id.
- Appointments.GetAppointment: a route id above 2147483647 fails in the store with 500; the model answers 404.
- Appointments.UpdateAppointment: a route id above 2147483647 fails in the store with 500; the model answers 404. A body service id above 2147483647 is the WritePatch gap (500 in the source, 400 in the model).
- Appointments.DeleteAppointment: a route id above 2147483647 fails in the store with 500; the model answers 404.
- Services.IndexService: a route id above 2147483647 fails in the store with 500; the model answers 404.
- Services.UpdateService: a route id above 2147483647 fails in the store with 500; the model answers 404.
- Services.DeleteService: a route id above 2147483647 fails in the store with 500; the model answers 404.
- Availability.DeleteBlock: a route id above 2147483647 fails in the store with 500; the model gives 500 only when no block has that id.
- Paging.ParseWindow: a skip or take outside the store's 32-bit range is not refused by the model, and a client id filter above 2147483647 is not either (Appointments.QueryCriteria).
- Text.NumberOf and Text.ParseInt read decimal integer literals only. Fractions, exponents, hexadecimal and `Infinity` are not modelled, and `toUpperCase` is modelled on ASCII letters only.
- ServiceForm.NameError and ServiceForm.DescriptionError count characters, while JavaScript's `length` counts UTF-16 code units. They differ on characters outside the Basic Multilingual Plane.
- ServiceForm.Form.HandleChange writes `errors[name] = null` as an entry holding `None`.
- Calendar.KeyOf: the grouping key is a structure of reason, times and absent-time markers, rather than its hyphen-joined text. So two different blocks whose joined texts happen to collide are not put in one group.
- Calendar.GroupEvents: the in-place `group.sort` is modelled as a stable sort of a copy. `Array.prototype.sort` is stable since ES2019; the in-place mutation itself is not modelled.
- Calendar.jsx's block editing (`handleEditBlock`, `updateBlock`) has no route on the server, so it is not modelled. Neither is `getCalendarData`, which the availability service does not export.
- The hours effect of the customer booking page reads an undefined `date`; `Booking.ShownHours` is the filter as a function of the offered hours, the selected day and the current time, and the effect itself is not modelled.
- Users.RemoveUser checks only the appointment and refresh-token references. Other references to the user, such as orders, are not modelled.
- Users.GetUsers and Appointments.ListPage: the order of rows is fixed as ascending id, and as newest day first with ties by id. The database gives no order for ties.
- React rendering, routing, toasts, the HTTP service wrappers and the user-facing messages of successful replies are not modelled.
