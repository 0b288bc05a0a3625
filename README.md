# Private route handlers of a tutoring marketplace backend

This project models the request decision procedures of the private REST
routes of a backend where alumnos (students) enroll with profesores (tutors),
score them, and exchange messages, and where admins validate tutors and manage
branches (ramas). Each handler resolves the requester's own record from the
token, runs an ordered chain of guards, and then picks which call into the
models layer to make, with which arguments. Two handlers also run their writes
inside a database transaction.

How the model is built:

- **Lookups.** `getByUserId`, `getById`, `getByAlumnoIdProfesorId`,
  `getByRamaId`, `getByEmailNotId` and the other lookups become partial maps in
  a `Models.Tables` snapshot. A missing key is a lookup that resolves to `null`.
- **Other model calls.** The models layer itself is not part of this model.
  Every other call into it (`create`, `accept`, `updatePuntuacionTrans`,
  `addPuntuacionTrans`, `opinionTrans`, the `search*` calls, `setLeido`, the
  deletes, `remove`, ...) is an opaque `Models.Call` event carrying its
  arguments. What such a call gives back, a value or an exception, is a
  parameter of type `Answer<T>`. The model never computes it.
- **Outcomes.** A handler ends in a `Models.Outcome`:
  - `Ok(reply)` for a JSON reply;
  - `Status(code)` for an explicit error status;
  - `Failed(fault)` for an exception passed to `manageRouterError`.
  Null dereferences such as `(await getAlumnoByUserId(..)).id` become
  `Failed(NullDereference)`.
- **Pure handlers.** A handler that only decides is a function. It returns a
  `Response`: the outcome plus the calls it issued.
- **Transactional handlers.** The opinion handler and `updateUserFields` are
  methods on a `Transactions.Store`. The store has a transaction state
  `Idle -> Open -> Committed | RolledBack` and a log of events: `Begin`,
  `Write(call, onHandle)`, `Commit` and `RollBack`. Each method is proved equal
  to a specification function (`OpinionRun`, `UpdateUserFieldsRun`), and the
  lemmas are proved about those functions.
- **The protected region.** `try { writes; commit } catch { rollBack; throw }`
  is defined once, as `Transactions.Region`.

The code is modelled as written, including these quirks:

- In the opinion handler, the guard returns come after `beginTransaction` and
  call neither `commit` nor `rollBack`, so the handle stays `Open`.
- A revision with an unchanged score still issues `updatePuntuacionTrans` with
  variation 0.
- `updateUserFields.js` never imports `getErrorFieldStr` or `ErrorType`. So
  its two "already exists" branches throw a `ReferenceError` that reaches the
  outer `catch`, and no 400 is sent. The email check runs before the userName
  check. Both branches end in the same exception, so the model cannot tell
  which of the two checks fired.
- `updateUserFields.js` passes no `db` to `updateNotPasswordFieldsTrans`, so
  that write is logged with `onHandle == false`.

## Model

| member | source | states |
|---|---|---|
| `Models.AffectedRowsOutcome` | routes/private/mensajes/mensajes.private.js:140-146 | 404 exactly when the write affected 0 rows, success exactly when it affected some; an exception reaches the outer catch unchanged |
| `Requesters.ActiveParty` | routes/private/mensajes/mensajes.private.js:121-137 | an alumno token resolves to its own alumno record only when it exists and is not `borrado`; any other token resolves to its own profesor record only when it exists and is `validado`; the id comes from the token's user alone |
| `Transactions.FaultIndex` | routes/private/inscripciones/inscripciones.private.js:128-137 | the position of the first write that throws: every write before it succeeds, and it equals the number of writes exactly when none throws |
| `Transactions.FaultIndexIsFirst` | routes/private/inscripciones/inscripciones.private.js:128-137 | a write that throws after only successful writes is the one at that position |
| `Transactions.FirstFault` | routes/private/inscripciones/inscripciones.private.js:128-142 | the region rethrows nothing exactly when no write and not `commit` threw; otherwise it rethrows the exception of the first write that threw, wherever it sits, or else that of `commit` |
| `Transactions.Region` | routes/private/inscripciones/inscripciones.private.js:128-142 | the rethrown exception is the first one thrown; with none, the events are the writes in order followed by `commit`; with one, the last event is `rollBack`; `rollBack` happens exactly when something threw; `commit` is attempted only after every write succeeded |
| `Transactions.RegionStopsAtFirstFault` | routes/private/inscripciones/inscripciones.private.js:128-142 | when the write at position i throws after every earlier write succeeded, the region's events are the writes up to and including that one, then `rollBack`: no later write and no `commit` is issued |
| `Transactions.RegionCommitFault` | routes/private/inscripciones/inscripciones.private.js:137-141 | when every write succeeds and `commit` throws, the events are all the writes, `commit`, then `rollBack` |
| `Transactions.RegionWritesOnlySteps` | routes/private/inscripciones/inscripciones.private.js:128-137 | the region issues no write other than its own steps |
| `Transactions.Transact` | routes/private/updateUserFields.js:25-36 | `beginTransaction` comes first; the handle ends Committed exactly when nothing threw, and then the handler replies and `commit` was the last event; otherwise it ends RolledBack, `rollBack` was the last event and the first exception is rethrown |
| `Inscripciones.Signup` | routes/private/inscripciones/inscripciones.private.js:28-51 | a missing alumno throws; an existing enrollment for (profesor, alumno) gives 400 before the profesor is looked up; a missing profesor gives 404; `validado == 0` gives 400; `create(alumno.id, profesor)` is issued exactly when every guard passes, and the reply is `success` exactly when that call returns; an exception thrown by that call reaches the outer catch unchanged |
| `Inscripciones.Accept` | routes/private/inscripciones/inscripciones.private.js:67-84 | a missing profesor throws; a missing enrollment gives 404; an enrollment made to another profesor gives 401; `accept` is issued exactly when the enrollment is the requester's, and the reply is `success` exactly when that call returns; an exception thrown by that call reaches the outer catch unchanged |
| `Inscripciones.RatingWrite` | routes/private/inscripciones/inscripciones.private.js:128-133 | the rating write targets the enrollment's profesor; it adds a new score exactly when the enrollment had none, and otherwise updates by a variation, so that the prior score (0 when none) plus what is pushed is the new score |
| `Inscripciones.OpinionGuards` | routes/private/inscripciones/inscripciones.private.js:106-132 | the four checks in order (missing enrollment 404, another alumno's 401, `estado == 0` 401, missing profesor 401), the first failure decides; it proceeds exactly when all pass, with `updatePuntuacionTrans(profesor, new - old)` when a score exists and `addPuntuacionTrans(profesor, new)` when it is null |
| `Inscripciones.OpinionRun` | routes/private/inscripciones/inscripciones.private.js:100-144 | a missing alumno throws before any transaction; a failed guard leaves the handle Open with only `beginTransaction` done and no write; it commits exactly when the guards pass and the rating write, `opinionTrans` and `commit` all succeed, in that order, with `commit` last; otherwise it rolls back and rethrows the first exception unchanged |
| `Inscripciones.ProtectedOpinion` | routes/private/inscripciones/inscripciones.private.js:128-142 | on the open transaction: the rating write, then `opinionTrans`, then `commit`, stopping at the first exception, which is followed by `rollBack` and rethrown; the handle ends Committed exactly when nothing threw |
| `Inscripciones.Opinion` | routes/private/inscripciones/inscripciones.private.js:93-149 | the imperative handler on the store: its outcome, its appended events and its final transaction state are those of `OpinionRun` |
| `Inscripciones.RatingHistoryTelescopes` | routes/private/inscripciones/inscripciones.private.js:128-133 | over successive opinions on one enrollment, each finding the score the previous one stored, the rating writes push in total the latest score minus the starting score, and add a new score exactly once if the enrollment started unscored, never otherwise |
| `Inscripciones.RevisionTwiceSameAsOnce` | routes/private/inscripciones/inscripciones.private.js:128-130 | revising a to b and then b to b pushes b - a in total, the same as the single revision |
| `Inscripciones.UnchangedScoreStillUpdates` | routes/private/inscripciones/inscripciones.private.js:128-130 | resubmitting the stored score still issues `updatePuntuacionTrans` with variation 0 |
| `Inscripciones.SearchForProfesor` | routes/private/inscripciones/inscripciones.private.js:161-171 | 401 with no search exactly when the token's user has no profesor record; otherwise the search is scoped to that profesor's id and the reply is the formatted result; an exception thrown by that call reaches the outer catch unchanged |
| `Inscripciones.SearchForAlumno` | routes/private/inscripciones/inscripciones.private.js:188-198 | 401 with no search exactly when the token's user has no alumno record; otherwise the search is scoped to that alumno's id; an exception thrown by that call reaches the outer catch unchanged |
| `Mensajes.Send` | routes/private/mensajes/mensajes.private.js:25-65 | an alumno sender is the alumno and `idUsuarioDestino` the profesor, and a profesor sender the reverse; 404 with no message exactly when the alumno is missing or `borrado` or the profesor is missing or not `validado`, and the message is created exactly when both are active; `create` always gets (profesor.id, alumno.id) in those positions, with `autor` the sender's record and `destinatario` the other; an exception thrown by that call reaches the outer catch unchanged |
| `Mensajes.SendSidesSwap` | routes/private/mensajes/mensajes.private.js:48-61 | an alumno writing to a profesor and the profesor writing back agree on the profesor and alumno ids; only `autor` and `destinatario` swap |
| `Mensajes.AllMessages` | routes/private/mensajes/mensajes.private.js:79-102 | 404 exactly when the requester has no active record; otherwise `getMensajes` is issued once, and exactly one of `profesorId` and `alumnoId` is non-null, and it is the requester's own id; an exception thrown by that call reaches the outer catch unchanged |
| `Mensajes.SetRead` | routes/private/mensajes/mensajes.private.js:118-146 | `destinatario` is the requester's own active record's id; 404 exactly when no row is affected; an exception thrown by that call reaches the outer catch unchanged |
| `Mensajes.Delete` | routes/private/mensajes/mensajes.private.js:162-191 | alumnos get `deleteMensajeAlumno` and other requesters `deleteMensajeProfesor`, each with their own id; 404 exactly when no row is affected; an exception thrown by that call reaches the outer catch unchanged |
| `Conversaciones.Delete` | routes/private/conversaciones/conversaciones.private.js:23-52 | 404 with no delete when the requester has no active record; alumnos get `deleteConversacionAlumno` and others `deleteConversacionProfesor`, with the path's conversation id and their own id from the token; 404 exactly when no row is affected; an exception thrown by that call reaches the outer catch unchanged |
| `Profesores.Validate` | routes/private/profesores/profesores.private.js:27-36 | `validate(id)` is issued; 404 exactly when no row is affected, success exactly when some is; an exception thrown by that call reaches the outer catch unchanged |
| `Profesores.Lock` | routes/private/profesores/profesores.private.js:52-60 | `lock(id)` is issued; 404 exactly when no row is affected, success exactly when some is; an exception thrown by that call reaches the outer catch unchanged |
| `Profesores.UpdateTargetsOwnRecord` | routes/private/profesores/profesores.private.js:77-86 | without a profesor record the answer is 404 and nothing is begun or written; every `updateConfigurationFieldsTrans` write carries the requester's own profesor id, whatever id the body held |
| `Profesores.UpdateIgnoresBodyId` | routes/private/profesores/profesores.private.js:84 | two update requests that differ only in the `id` their body carries do exactly the same thing |
| `Profesores.UpdateRun` | routes/private/profesores/profesores.private.js:77-86 | 404 exactly when the token's user has no profesor record; a successful reply is the re-read user. With `UpdateTargetsOwnRecord` and `UpdateIgnoresBodyId`: nothing is begun without the record, and every configuration write carries the requester's own profesor id whatever the body said |
| `Profesores.Update` | routes/private/profesores/profesores.private.js:70-91 | the imperative handler: its outcome, events and transaction state are those of `UpdateRun` |
| `Profesores.GetSearch` | routes/private/profesores/profesores.private.js:104-118 | an admin gets the unscoped `search`; any other requester gets `searchByAlumnoId` with their own alumno id, or 404 with no search when that record is missing; an exception thrown by that call reaches the outer catch unchanged |
| `Alumnos.Update` | routes/private/alumnos/alumnos.private.js:21-27 | `updateUserFields` with the no-op role update: the outcome and events are those of `UpdateUserFieldsRun`, and the only write is the token user's user-fields update |
| `Alumnos.LogicDeleteAlumno` | routes/private/alumnos/alumnos.private.js:38-47 | `logicDelete(id)` is issued; 404 exactly when no row is affected; an exception thrown by that call reaches the outer catch unchanged |
| `Alumnos.LogicUndeleteAlumno` | routes/private/alumnos/alumnos.private.js:63-72 | `logicUndelete(id)` is issued; 404 exactly when no row is affected; an exception thrown by that call reaches the outer catch unchanged |
| `Alumnos.GetSearch` | routes/private/alumnos/alumnos.private.js:90-104 | an admin gets the unscoped `search`; any other requester gets `searchByTeacherId` with their own profesor id, or 404 with no search when that record is missing; an exception thrown by that call reaches the outer catch unchanged |
| `Ramas.WithId` | routes/private/ramas/ramas.private.js:25 | `{id, ...body}` has the body's keys plus `id`; every body property is kept; `id` is the given one unless the body carries its own |
| `Ramas.Create` | routes/private/ramas/ramas.private.js:23-25 | `create(body)` is issued and the reply is its `insertId` merged with the body; an exception thrown by that call reaches the outer catch unchanged |
| `Ramas.Update` | routes/private/ramas/ramas.private.js:42-51 | `update(id, body)` is issued; 404 exactly when no row is affected, otherwise the reply echoes `{id, ...body}`; an exception thrown by that call reaches the outer catch unchanged |
| `Ramas.Delete` | routes/private/ramas/ramas.private.js:67-82 | 409 with no `remove` exactly when a profesor is linked to the branch; otherwise `remove(id)`, with 404 exactly when no row is affected; an exception thrown by that call reaches the outer catch unchanged |
| `UserFields.UpdateUserFieldsRun` | routes/private/updateUserFields.js:8-41 | an explicit status is never sent; a success reply is the re-read user, after a commit. With `UpdateUserFieldsRunProperties` and `UpdateUserFieldsClosedForm`: conflicts stop before any transaction, the write order and `db` use, `commit` last, and `rollBack` with the first exception rethrown |
| `UserFields.UserFieldTransaction` | routes/private/updateUserFields.js:25-36 | the update's transaction spelled out: user-fields write off the handle, then the role-specific write on it, then `commit`, cut short by the first exception and then closed by `rollBack` |
| `UserFields.UpdateUserFieldsClosedForm` | routes/private/updateUserFields.js:12-36 | a request with neither conflict runs exactly the update's transaction, with the re-read user as the reply |
| `UserFields.ProtectedUpdate` | routes/private/updateUserFields.js:25-36 | against the store: `beginTransaction`, the user-fields write, the role-specific write and `commit`, the first exception followed by `rollBack` and rethrown; the handle ends Committed exactly when nothing threw |
| `UserFields.UpdateUserFieldsRunProperties` | routes/private/updateUserFields.js:8-41 | the updated user is always the token's user; either conflict stops the request before any transaction or write (with the `ReferenceError` the missing import causes); inside the transaction the order is user fields (without `db`), then the role-specific update (with `db`), then `commit` last; the reply is the re-read user; any exception causes `rollBack` and reaches the outer catch unchanged |
| `UserFields.UpdateUserFields` | routes/private/updateUserFields.js:6-43 | the imperative function on the store: its outcome, events and transaction state are those of `UpdateUserFieldsRun` |

## Left out

- The internals of the models layer and helpers are not part of this model: search building and pagination, `formatSearchResult`, the rating arithmetic of `updatePuntuacionTrans`/`addPuntuacionTrans`, the SQL behind `setLeido`, the deletes and `opinionTrans`, and `completeUser`. Their calls are opaque events, and their results are parameters.
- Inscripciones.RatingHistoryTelescopes: requires as a hypothesis that each opinion finds the score the previous one stored. That is what `opinionTrans` is expected to do, but its code is not part of this model.
- Lookups that throw are not modelled. Nor are `beginTransaction` or `rollBack` throwing. Every lookup resolves to a record or to null.
- Null values in the `validado`/`borrado` columns are not modelled. The columns are integers, and truthiness is "not 0". For 0/1 values, `validado === 0` in signup and `!validado` in the messaging routes then agree.
- Scores are taken to be integers, so the variation `new - old` is exact integer subtraction. JavaScript computes it in floating point, which is not modelled. The opinion validation schema that checks the score before the handler runs is not part of this model.
- Path parameters are modelled as numeric ids, including the `id` that the branch update echoes.
- The socket notification `nuevoMensaje` after a message is sent is push I/O. An exception it throws, which would replace the reply, is not modelled either.
- `completeUser` after the commit of `updateUserFields` is taken to succeed. Its result is the opaque `CompletedUser(reread)` reply.
- The `checkRole`/`checkRoles` middleware and the express-validator schemas are taken as already passed. A handler's "else" branch is modelled as "any role other than the one tested", as written.
- The HTTP `res` object is replaced by the outcome value. The model does not capture `res.status(400)` being set just before the conflict branch of `updateUserFields` throws.
- Asynchronous scheduling and database isolation are left out. Each request is one sequential step. This includes the un-awaited `updateUserFields(...)` call in the profesor update.
- The public routes, login, user password/image routes, router wiring and API docs are not part of this model. They are bcrypt, JWT, upload, email and templating glue.
