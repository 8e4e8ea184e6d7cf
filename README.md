# EquipPro equipment and ticket core, in Dafny

EquipPro is a Spring Boot back end with a React front end. It is used to
manage equipment, the clients and technicians who hold it, and maintenance
tickets. This project models the parts of it that carry logic of their own:

- **The equipment service** (`equipment_service.dfy`): `EquipmentInfoServiceImp`
  creates, reads, deletes, assigns and releases equipment.
  - The repositories are in-memory maps: users by `cin` with their role and
    equipment list, and equipment by `ref`.
  - `EquipmentService.EquipmentInfoService` is a class whose fields are those
    maps and the stored ticket rows. A ticket row holds its technician and its
    equipment as keys, as the ticket table does, so the tickets the
    repository queries see are resolved against the current users and
    equipment (`EquipmentService.Tickets`).
  - Each state-changing method is proved to move the database exactly as a
    specification function on `Store` says (`Create`, `Delete`, `Assign`,
    `Remove`). Lemmas state what those functions promise: the error order,
    the effect of a success, that nothing else changes, and the round trip
    assign-then-release.
- **The ticket repository** (`ticket_repository.dfy`): the seven queries of
  `TicketRepository` are selections over the stored tickets. The queries have
  no `ORDER BY`, so results are compared as multisets.
- **The ticket detail screen** (`ticket_details.dfy`, with `js_string.dfy`
  and `json.dfy` for JavaScript strings and values). It covers:
  - `formatDate`, and a parser that reads its output back;
  - how a loaded ticket becomes the editable details: a missing close date
    is shown as `'Not closed yet'`;
  - how the details become the update payload;
  - the Edit/Save/Cancel state machine, both as a class
    (`TicketDetailsView`) with the screen's state hooks as fields and as
    functions on `ViewState` with lemmas. The invariant
    `readOnly == !editMode` holds after any run of events.
- **The list screens** (`table.dfy`, `client_tickets.dfy`): the
  `meta.updateData` single-cell update shared by the client's ticket list,
  the administrator's ticket list and the administrator's client list. Also
  their initial table state, and the client screen's mapping of tickets to
  table rows.

Conventions of the model:
- An operation that throws returns `Failed(e)`/`Err(e)` in the model, with
  the store unchanged.
- A JavaScript callback that would throw (reading a property of `null`)
  yields `None`, and the screen then keeps its data.

## Model

| member | source | states |
|---|---|---|
| EquipmentService.PersonOf | backend/src/main/java/com/EquipPro/backend/repository/TicketRepository.java:23 | a ticket's technician or owner key reaches a person exactly when that user is stored, with that user's `cin` and e-mail |
| EquipmentService.EquipmentOf | backend/src/main/java/com/EquipPro/backend/repository/TicketRepository.java:24 | a ticket's equipment key reaches an equipment exactly when that `ref` is stored, with the owner its record currently names |
| EquipmentService.Resolve | backend/src/main/java/com/EquipPro/backend/repository/TicketRepository.java:13-24 | a resolved ticket keeps the row's id and status and follows its technician and equipment keys in the current database |
| EquipmentService.Tickets | backend/src/main/java/com/EquipPro/backend/repository/TicketRepository.java:13-24 | the tickets the queries run over: one resolved ticket per stored row, in storage order |
| EquipmentService.EquipmentInfoService.GetAllEquipments | backend/src/main/java/com/EquipPro/backend/service/EquipmentInfoServiceImp.java:28-30 | the result holds exactly the stored equipment records, one per stored `ref`, each the record stored under its own `ref` |
| EquipmentService.EquipmentInfoService.GetOwnedEquipments | backend/src/main/java/com/EquipPro/backend/service/EquipmentInfoServiceImp.java:33-40 | the result is `Owned` of the current database: a known user (client or technician) gets its equipment list; an unknown `cin` gets UserNotFound |
| EquipmentService.Owned | backend/src/main/java/com/EquipPro/backend/service/EquipmentInfoServiceImp.java:33-40 | the owned list exists exactly for a known `cin` and is that user's list; otherwise UserNotFound |
| EquipmentService.EquipmentInfoService.GetFixedEquipments | backend/src/main/java/com/EquipPro/backend/service/EquipmentInfoServiceImp.java:43-50 | a `cin` that is not a known technician gets UserNotFound; a technician gets the repository's closed-ticket equipment for that `cin`, over the current resolved tickets |
| EquipmentService.EquipmentInfoService.GetFixingEquipments | backend/src/main/java/com/EquipPro/backend/service/EquipmentInfoServiceImp.java:53-60 | same guard; a technician gets the repository's underway-ticket equipment |
| EquipmentService.Create | backend/src/main/java/com/EquipPro/backend/service/EquipmentInfoServiceImp.java:63-68 | the saved equipment keeps its `ref`, is available, has no owner and is dated `today`, whatever the input held; it is stored under its `ref`; other equipment, users and the stored ticket rows are unchanged |
| EquipmentService.EquipmentInfoService.CreateEquipment | backend/src/main/java/com/EquipPro/backend/service/EquipmentInfoServiceImp.java:63-68 | returns the saved equipment and leaves the database as `Create` says; keeps every entity under its own key |
| EquipmentService.CreateThenGet | backend/src/main/java/com/EquipPro/backend/service/EquipmentInfoServiceImp.java:63-88 | a created equipment reads back by `getEquipment` as saved and is among the available equipment |
| EquipmentService.Available | backend/src/main/java/com/EquipPro/backend/service/EquipmentInfoServiceImp.java:71-73 | exactly the stored equipment whose `available` flag is set |
| EquipmentService.EquipmentInfoService.GetAvailableEquipments | backend/src/main/java/com/EquipPro/backend/service/EquipmentInfoServiceImp.java:71-73 | the result is `Available` of the current database: exactly the stored equipment with `available` set |
| EquipmentService.Get | backend/src/main/java/com/EquipPro/backend/service/EquipmentInfoServiceImp.java:81-88 | succeeds exactly when `ref` is stored, with the stored record; otherwise EquipmentNotFound |
| EquipmentService.EquipmentInfoService.GetEquipment | backend/src/main/java/com/EquipPro/backend/service/EquipmentInfoServiceImp.java:81-88 | the result is `Get` of the current database: the stored record for a stored `ref`, EquipmentNotFound otherwise |
| EquipmentService.Delete | backend/src/main/java/com/EquipPro/backend/service/EquipmentInfoServiceImp.java:91-98 | succeeds exactly when `ref` is stored; then `ref` is gone and every other entry is unchanged; otherwise EquipmentNotFound and the store is unchanged |
| EquipmentService.EquipmentInfoService.DeleteEquipment | backend/src/main/java/com/EquipPro/backend/service/EquipmentInfoServiceImp.java:91-98 | outcome and new database are those of `Delete` |
| EquipmentService.DeleteThenGet | backend/src/main/java/com/EquipPro/backend/service/EquipmentInfoServiceImp.java:81-98 | after a successful delete, `getEquipment` of that `ref` fails with EquipmentNotFound |
| EquipmentService.RemoveFirst | backend/src/main/java/com/EquipPro/backend/service/EquipmentInfoServiceImp.java:147 | `List.remove`: a list without `x` is unchanged; otherwise the first occurrence of `x` is removed, the elements before and after it keep their order, and the multiset loses one `x` |
| EquipmentService.RemoveFirstAppended | backend/src/main/java/com/EquipPro/backend/service/EquipmentInfoServiceImp.java:111 | removing an element just appended to a list that did not hold it gives back the original list |
| EquipmentService.Assign | backend/src/main/java/com/EquipPro/backend/service/EquipmentInfoServiceImp.java:101-134 | the specification of both assign operations; what it promises is stated by `AssignErrors`, `AssignEffect`, `AssignSeenByTickets` and `AssignThenRemove` |
| EquipmentService.AssignErrors | backend/src/main/java/com/EquipPro/backend/service/EquipmentInfoServiceImp.java:101-110 | UserNotFound when the user of that role is missing, even if the equipment is missing too; else EquipmentNotFound when the equipment is missing; else EquipmentAlreadyExists when it is in the user's list; success exactly otherwise; a failure changes nothing |
| EquipmentService.AssignEffect | backend/src/main/java/com/EquipPro/backend/service/EquipmentInfoServiceImp.java:111-114 | on success the equipment is appended to that user's list and its owner becomes that user; no other user, no other equipment, no other field of the equipment and no stored ticket row changes; the key sets stay the same |
| EquipmentService.EquipmentInfoService.AssignEquipmentToClient | backend/src/main/java/com/EquipPro/backend/service/EquipmentInfoServiceImp.java:101-116 | outcome and new database are those of `Assign` for the client repository |
| EquipmentService.EquipmentInfoService.AssignEquipmentToTechnician | backend/src/main/java/com/EquipPro/backend/service/EquipmentInfoServiceImp.java:119-134 | outcome and new database are those of `Assign` for the technician repository |
| EquipmentService.EquipmentInfoService.AssignTo | backend/src/main/java/com/EquipPro/backend/service/EquipmentInfoServiceImp.java:101-134 | the guards and updates shared by both assign operations, step by step, end exactly as `Assign` says |
| EquipmentService.AssignKeepsPreviousHolder | backend/src/main/java/com/EquipPro/backend/service/EquipmentInfoServiceImp.java:108-112 | assignment does not check the current owner: an equipment in another user's list stays there while its owner becomes the new user |
| EquipmentService.AssignSeenByTickets | backend/src/main/java/com/EquipPro/backend/service/EquipmentInfoServiceImp.java:111-115 | after a successful assign, every ticket of that equipment resolves to it with the new user (its `cin` and e-mail) as owner, and `getByEquipmentOwnerEmail` of that user's e-mail returns the ticket |
| EquipmentService.Remove | backend/src/main/java/com/EquipPro/backend/service/EquipmentInfoServiceImp.java:137-170 | the specification of both release operations; what it promises is stated by `RemoveErrors`, `RemoveEffect` and `RemoveSeenByTickets` |
| EquipmentService.RemoveErrors | backend/src/main/java/com/EquipPro/backend/service/EquipmentInfoServiceImp.java:137-145 | the same error order; EquipmentAlreadyExists when the equipment is not in the user's list; success exactly when user, equipment and list entry are all there; a failure changes nothing |
| EquipmentService.RemoveEffect | backend/src/main/java/com/EquipPro/backend/service/EquipmentInfoServiceImp.java:146-150 | on success that user's record differs only in its list, which is `List.remove` of the old one (one occurrence gone, one element shorter); the equipment's owner becomes none; no other user, equipment or stored ticket row changes |
| EquipmentService.RemoveSeenByTickets | backend/src/main/java/com/EquipPro/backend/service/EquipmentInfoServiceImp.java:146-151 | after a successful release, every ticket of that equipment resolves to it with no owner, so no `getByEquipmentOwnerEmail` returns it |
| EquipmentService.EquipmentInfoService.RemoveEquipmentFromClient | backend/src/main/java/com/EquipPro/backend/service/EquipmentInfoServiceImp.java:137-152 | outcome and new database are those of `Remove` for the client repository |
| EquipmentService.EquipmentInfoService.RemoveEquipmentFromTechnician | backend/src/main/java/com/EquipPro/backend/service/EquipmentInfoServiceImp.java:155-170 | outcome and new database are those of `Remove` for the technician repository |
| EquipmentService.EquipmentInfoService.RemoveFrom | backend/src/main/java/com/EquipPro/backend/service/EquipmentInfoServiceImp.java:137-170 | the guards and updates shared by both release operations end exactly as `Remove` says |
| EquipmentService.AssignThenRemove | backend/src/main/java/com/EquipPro/backend/service/EquipmentInfoServiceImp.java:108-148 | a successful assign followed by a release of the same `(ref, cin)` succeeds, restores every user's list exactly and leaves the equipment with no owner (not its previous owner); the stored ticket rows are unchanged |
| EquipmentService.OperationsKeepKeyed | backend/src/main/java/com/EquipPro/backend/service/EquipmentInfoServiceImp.java:62-170 | create, delete, assign and release all keep every user under its `cin` and every equipment under its `ref` |
| TicketRepository.HandledBy | backend/src/main/java/com/EquipPro/backend/repository/TicketRepository.java:13-16 | the WHERE clause of the two equipment queries: the ticket's technician has that `cin` and the ticket has that status |
| TicketRepository.Where | backend/src/main/java/com/EquipPro/backend/repository/TicketRepository.java:17-22 | a WHERE clause: the result holds the tickets that satisfy the condition, each as often as it is stored, and no others |
| TicketRepository.EquipmentsHandledBy | backend/src/main/java/com/EquipPro/backend/repository/TicketRepository.java:13-16 | one equipment per ticket of that technician with that status that has an equipment |
| TicketRepository.HandledByMembers | backend/src/main/java/com/EquipPro/backend/repository/TicketRepository.java:13-16 | an equipment is in the selection exactly when a stored ticket of that technician with that status holds it |
| TicketRepository.HandledByCount | backend/src/main/java/com/EquipPro/backend/repository/TicketRepository.java:13-16 | each equipment occurs in the selection exactly as often as there are such tickets holding it |
| TicketRepository.GetFixedEquipments | backend/src/main/java/com/EquipPro/backend/repository/TicketRepository.java:13-14 | exactly the equipment of the closed tickets of technician `cin`: one entry per such ticket, and each equipment as often as such tickets hold it |
| TicketRepository.GetFixingEquipments | backend/src/main/java/com/EquipPro/backend/repository/TicketRepository.java:15-16 | the same for status 'underway', multiplicities included |
| TicketRepository.GetClosedTickets | backend/src/main/java/com/EquipPro/backend/repository/TicketRepository.java:17-18 | sound and complete: every result ticket is closed, and every closed ticket is in the result as often as it is stored |
| TicketRepository.GetUnderwayTickets | backend/src/main/java/com/EquipPro/backend/repository/TicketRepository.java:19-20 | the same for 'underway' |
| TicketRepository.GetWaitingTickets | backend/src/main/java/com/EquipPro/backend/repository/TicketRepository.java:21-22 | the same for 'waiting' |
| TicketRepository.GetByTechnicianEmail | backend/src/main/java/com/EquipPro/backend/repository/TicketRepository.java:23 | a ticket is in the result exactly when its technician has that e-mail; none more often than stored |
| TicketRepository.GetByEquipmentOwnerEmail | backend/src/main/java/com/EquipPro/backend/repository/TicketRepository.java:24 | a ticket is in the result exactly when its equipment's owner has that e-mail; none more often than stored |
| TicketRepository.StatusSelectionsDisjoint | backend/src/main/java/com/EquipPro/backend/repository/TicketRepository.java:17-22 | the closed, underway and waiting results share no ticket, pairwise |
| TicketRepository.StatusSelectionsWithinTickets | backend/src/main/java/com/EquipPro/backend/repository/TicketRepository.java:17-22 | together the three results hold no ticket more often than it is stored, so no more tickets than are stored |
| TicketRepository.FixedAndFixingDisjoint | backend/src/main/java/com/EquipPro/backend/repository/TicketRepository.java:13-16 | for one technician, the tickets behind the fixed and the fixing equipment never overlap |
| JsString.NatToString | frontend/src/components/admin/tickets/TicketDetails.js:79 | `String(n)` for `n >= 0`: at least one digit, all digits, no leading zero; one digit exactly below 10, at most two exactly below 100 |
| JsString.IntToString | frontend/src/components/admin/tickets/TicketDetails.js:79 | `String(n)`: non-empty, starts with '-' exactly when `n` is negative, all digits otherwise |
| JsString.ParseIntString | frontend/src/components/admin/tickets/TicketDetails.js:79 | `String(n)` is a signed decimal literal that reads back as `n` |
| JsString.PadStart | frontend/src/components/admin/tickets/TicketDetails.js:79 | `padStart(len, fill)`: length is the larger of `len` and the input's; the input is the suffix; everything before it is `fill` |
| TicketDetails.Padded | frontend/src/components/admin/tickets/TicketDetails.js:79 | a padded month or day is at least two characters, and exactly the two-digit form for 0..99 |
| TicketDetails.PadTwo | frontend/src/components/admin/tickets/TicketDetails.js:79 | `String(n).padStart(2, '0')` is the two-digit form of every `n` in 0..99 |
| TicketDetails.FormatDate | frontend/src/components/admin/tickets/TicketDetails.js:77-80 | `formatDate`; its properties are stated by `FormatDateShape`, `FormatDateTwoDigitFields` and `FormatDateRoundTrip` |
| TicketDetails.FormatDateShape | frontend/src/components/admin/tickets/TicketDetails.js:77-80 | `formatDate` starts with the unpadded decimal year followed by '-', with at least two characters for each of the other fields |
| TicketDetails.FormatDateTwoDigitFields | frontend/src/components/admin/tickets/TicketDetails.js:77-80 | with month and day in 0..99 the result is year, '-', two-digit month, '-', two-digit day |
| TicketDetails.FormatDateRoundTrip | frontend/src/components/admin/tickets/TicketDetails.js:77-80 | with month and day in 0..99 the formatted date parses back to the same `[year, month, day]` |
| TicketDetails.NotClosedYetIsNoDate | frontend/src/components/admin/tickets/TicketDetails.js:42 | no formatted date equals the text 'Not closed yet', so the shown close date tells both cases apart |
| TicketDetails.CloseDateShown | frontend/src/components/admin/tickets/TicketDetails.js:42 | the shown close date is 'Not closed yet' exactly when the response has none, and otherwise the formatted date |
| TicketDetails.LoadDetails | frontend/src/components/admin/tickets/TicketDetails.js:39-48 | the details have exactly the eight properties: both dates formatted, a missing close date shown as text, every other property copied from the response |
| TicketDetails.CloseDateToSend | frontend/src/components/admin/tickets/TicketDetails.js:86 | the close date is sent as `null` exactly when it is 'Not closed yet' or `null`, and unchanged otherwise |
| TicketDetails.LoadThenSaveCloseDate | frontend/src/components/admin/tickets/TicketDetails.js:42-86 | saving the loaded details sends a `null` close date exactly when the ticket had none; otherwise the formatted date, which reads back as the loaded date |
| TicketDetails.TechnicianToSendAsWritten | frontend/src/components/admin/tickets/TicketDetails.js:91 | the technician is sent as `{cin: technician}` exactly when it is truthy, and as `null` otherwise |
| TicketDetails.Payload | frontend/src/components/admin/tickets/TicketDetails.js:83-92 | the payload has exactly the eight properties; the close date as `CloseDateToSend` makes it; every property but the close date and the technician is copied from the details |
| TicketDetails.PayloadCopies | frontend/src/components/admin/tickets/TicketDetails.js:84-90 | each payload property other than the close date and the technician is the value of that property in the details |
| TicketDetails.SavePayloadAsWritten | frontend/src/components/admin/tickets/TicketDetails.js:83-92 | the payload as written, with the technician wrapped as `{cin: technician}` |
| TicketDetails.AsWrittenNestsTechnician | frontend/src/components/admin/tickets/TicketDetails.js:47-91 | as written, a ticket loaded with technician `{cin: "T1"}` and saved without using the select sends `{cin: {cin: "T1"}}`: the `cin` sent is not a string |
| TicketDetails.TechnicianToSend | frontend/src/components/admin/tickets/TicketDetails.js:91 | corrected: `null` exactly when there is no technician; a `cin` string picked in the select is sent as `{cin: cin}`; a loaded technician object is sent as `{cin: its cin}` |
| TicketDetails.SavePayload | frontend/src/components/admin/tickets/TicketDetails.js:83-92 | the corrected payload: eight properties, with the technician as `TechnicianToSend` makes it |
| TicketDetails.PayloadsDifferOnlyInTechnician | frontend/src/components/admin/tickets/TicketDetails.js:83-92 | the corrected payload is the payload as written with only the technician replaced, and the two are equal whenever the details do not hold a technician object |
| TicketDetails.SaveSendsTechnicianCin | frontend/src/components/admin/tickets/TicketDetails.js:91 | the corrected payload sends the technician's `cin` string both for a loaded technician object and for a `cin` picked in the select |
| TicketDetails.Initial | frontend/src/components/admin/tickets/TicketDetails.js:15-28 | the mounted screen is consistent (read-only outside edit mode), not editing, with no changes and empty original details; the details have the eight properties, `''` for id, both dates, status, comment and task, and `null` for equipment and technician |
| TicketDetails.Loaded | frontend/src/components/admin/tickets/TicketDetails.js:49-50 | a load sets the details and the original details to the loaded ticket and touches no flag |
| TicketDetails.EditToggle | frontend/src/components/admin/tickets/TicketDetails.js:120-130 | `handleEditToggle`, sending the corrected payload; its cases are stated by `EditToggleCases` |
| TicketDetails.EditToggleCases | frontend/src/components/admin/tickets/TicketDetails.js:120-130 | outside edit mode the toggle enters edit mode and sends nothing; in edit mode with changes it sends the corrected payload, leaves edit mode and clears the changes flag; when the button is disabled it does nothing; a payload is sent exactly in the second case; consistency is kept |
| TicketDetails.Cancel | frontend/src/components/admin/tickets/TicketDetails.js:132-137 | `handleCancel`; stated by `CancelRestores` |
| TicketDetails.InputChange | frontend/src/components/admin/tickets/TicketDetails.js:139-143 | `handleInputChange`; stated by `InputChangeUpdatesOneField` |
| TicketDetails.CancelRestores | frontend/src/components/admin/tickets/TicketDetails.js:132-137 | Cancel restores the details to the original details exactly, leaves edit mode and clears the changes flag; consistency holds afterwards |
| TicketDetails.InputChangeUpdatesOneField | frontend/src/components/admin/tickets/TicketDetails.js:139-143 | the named field takes the new value; every other field, the flags other than `changesMade`, and the original details stay; `changesMade` becomes true; consistency is kept |
| TicketDetails.EditThenSaveSendsEdit | frontend/src/components/admin/tickets/TicketDetails.js:83-143 | in edit mode, editing a field the payload copies and then pressing Save sends the edited value and clears the changes flag |
| TicketDetails.RunKeepsConsistent | frontend/src/components/admin/tickets/TicketDetails.js:25-26 | from a consistent state, any sequence of toggles, cancels, inputs and loads keeps `readOnly == !editMode` |
| TicketDetails.CancelAfterEditsRestoresLoaded | frontend/src/components/admin/tickets/TicketDetails.js:132-143 | after any sequence of events without a load, the original details are unchanged, and Cancel returns the details to them |
| TicketDetails.TicketDetailsView.constructor | frontend/src/components/admin/tickets/TicketDetails.js:15-28 | the screen's state hooks start as `Initial` says |
| TicketDetails.TicketDetailsView.TicketLoaded | frontend/src/components/admin/tickets/TicketDetails.js:38-50 | the success branch of the load leaves the state as `Loaded` says, and consistency holds |
| TicketDetails.TicketDetailsView.HandleEditToggle | frontend/src/components/admin/tickets/TicketDetails.js:120-130 | new state and sent payload are those of `EditToggle`; consistency is kept |
| TicketDetails.TicketDetailsView.HandleCancel | frontend/src/components/admin/tickets/TicketDetails.js:132-137 | new state is `Cancel` of the old one; consistency is kept |
| TicketDetails.TicketDetailsView.HandleInputChange | frontend/src/components/admin/tickets/TicketDetails.js:139-143 | new state is `InputChange` of the old one; consistency is kept |
| TicketDetails.TicketDetailsView.CloseButtonShown | frontend/src/components/admin/tickets/TicketDetails.js:222 | the Close button is shown exactly when the status is not 'closed' |
| TicketDetails.TicketDetailsView.EditButtonDisabled | frontend/src/components/admin/tickets/TicketDetails.js:291 | the Edit/Save button is disabled exactly in edit mode with no changes |
| Table.UpdateRows | frontend/src/components/client/tickets/Tickets.js:72-82 | same number of rows in the same order; every row other than `rowIndex` is the row that was there; row `rowIndex` has `columnId` set to `value` and every other property kept |
| Table.UpdateData | frontend/src/components/admin/tickets/Tickets.js:61-71 | `updateData` changes the rows as `UpdateRows` says and keeps the column filters |
| Table.UpdateRowsOutOfRange | frontend/src/components/admin/clients/ClientAdmin.js:51-61 | a negative or too large row index leaves the data unchanged |
| Table.UpdateRowsIdempotent | frontend/src/components/client/tickets/Tickets.js:72-82 | applying the same update twice gives the same rows as applying it once |
| Table.UpdateRowsLastWins | frontend/src/components/admin/tickets/Tickets.js:61-71 | of two updates of the same cell, the later one decides the result |
| Table.UpdateRowsCommute | frontend/src/components/admin/clients/ClientAdmin.js:51-61 | updates of two different cells can be applied in either order |
| Table.Initial | frontend/src/components/admin/tickets/Tickets.js:45-46 | an administrator list screen mounts with its initial rows (`DATA`) and no column filter (the client list of `ClientAdmin.js` lines 36-37 is the same) |
| ClientTickets.InitialState | frontend/src/components/client/tickets/Tickets.js:48-49 | the client's ticket list mounts with no rows and no column filter |
| ClientTickets.FormattedData | frontend/src/components/client/tickets/Tickets.js:93-99 | the mapping succeeds exactly when every ticket has an equipment with an owner and a technician; then there is one row per ticket, in order, with exactly the keys `ticketId`, `equipmentReference`, `owner`, `technician` and `status` holding the ticket's id, equipment `ref`, owner `cin`, technician `cin` and status |
| ClientTickets.TicketsLoaded | frontend/src/components/client/tickets/Tickets.js:92-109 | a formattable response replaces the data by the formatted rows; a response the mapping throws on leaves the data as it was; the column filters are kept either way |

## Left out

- HTTP requests and their effects are not modelled, and neither are the
  other browser effects. That covers:
  - the ticket update, close and delete requests and the technician list
    request;
  - the `Swal` dialogs, the `window.location` reloads and redirects, and
    the `localStorage` token;
  - the `useJwt` decoding and the React rendering.
  
  Only the values these steps read or produce are modelled. The payload
  `HandleEditToggle` hands to the update request is returned as `sent`.
- Filtering, sorting and pagination of the list screens come from the table
  library, whose source is not part of this model. So do the `Filters`
  component and the `data.js` row sets (`DATA` is a parameter of
  `Table.Initial`).
- `Header.js` and `Admin.js` hold menu state and a user request with no
  logic of their own.
- `getNotUsedEquipments` delegates to a repository query that is not part of
  this model.
- `equipmentIssueRequest` is a stub that returns `null`.
- JPA persistence (`save`, `findById`, `deleteById`, `findAll`) is collapsed
  into map reads and updates.
- `LocalDate.now()` is the parameter `today`.
- `EquipmentInfo.equals` is not part of this model. The `contains` and
  `remove` calls on a user's equipment list are taken as equality on `ref`,
  so the list is modelled as a list of references.
- Equipment fields other than `ref`, `creationDate`, `available` and `owner`
  are not modelled. Neither are user fields other than `cin`, role, e-mail
  and the equipment list, nor ticket fields other than id, status,
  technician and equipment.
- User kinds other than client and technician are not modelled. The
  client and technician repositories are the users of that role.
- The equipment's `owner` is modelled by the owner's `cin`, and a ticket
  row's technician and equipment by their keys. A key with no stored user or
  equipment behind it resolves to no one; foreign-key constraints are not
  modelled.
- EquipmentService.AssignKeepsPreviousHolder: a user's equipment list and an
  equipment's `owner` are modelled as two independent pieces of state, each
  updated as the service writes it. The JPA mapping between the two
  (whether the list is derived from `owner`) is not part of this model, so
  the lemma holds for the state as the service updates it.
- The JPQL queries have no `ORDER BY`. Result order is therefore not
  modelled: the functions return storage order, and every stated property is
  about multisets.
- Paths such as `t.technician.cin` are read as inner joins, so a ticket with
  no technician or no equipment is never selected by those queries.
- JavaScript numbers are modelled as unbounded integers. Every number these
  screens handle is an id, a year, a month or a day.
- A date array is modelled as a well-formed `[year, month, day]` triple.
  Arrays of another length are not modelled.
- The Close guard's loose `!=` is modelled as inequality of the value with
  the string 'closed'. Loose equality between a number and a numeric string
  is not modelled.
- A value typed into an input is any `Value`, though the browser only ever
  supplies strings.
- TicketDetails.TicketDetailsView.HandleEditToggle: sends the corrected
  payload (`SavePayload`), not the one `saveChanges` builds as written; see
  Findings. `PayloadsDifferOnlyInTechnician` states how the two differ.
- TicketDetails.EditToggle: sends the corrected payload (`SavePayload`);
  the payload as written is `SavePayloadAsWritten`.
- TicketDetails.EditToggleCases: states the payload sent as the corrected
  one (`SavePayload`).
- ClientTickets.TicketsLoaded: keeps the column filters when new data
  arrives, because the code only calls `setData`.

## Findings

| source | as written | input that shows it | evidently intended | confidence | as-written member | corrected member |
|---|---|---|---|---|---|---|
| frontend/src/components/admin/tickets/TicketDetails.js:91 | `technician: ticketDetails.technician ? { cin: ticketDetails.technician } : null`. After a load, `ticketDetails.technician` is the whole technician object (line 47); only a choice in the select replaces it with a `cin` string. | Load a ticket whose technician is `{cin: "T1"}`, edit the comment, press Save: the payload's technician is `{cin: {cin: "T1"}}` | send `{cin: "T1"}`, the technician's `cin`, whether it came from the load or from the select | medium, not executed | TicketDetails.AsWrittenNestsTechnician | TicketDetails.SaveSendsTechnicianCin |
