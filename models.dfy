/** The interface between the private route handlers and the unseen `models/`
    layer: the records its lookups return, the request payloads the handlers
    read, the opaque calls they issue, and the outcome a handler ends in.

    A lookup (`getByUserId`, `getById`, ...) is modelled as a partial map in a
    `Tables` snapshot: a key missing from the map is a lookup that resolves to
    `null`. Every other model call is an opaque `Call` recorded with its
    arguments; what it gives back is an `Answer` supplied by the caller of the
    model, never computed here. */
module Models {

  type Id = nat

  /** A value produced or consumed by an unseen function (a search result, a
      created message, a filter document, a request body's other fields) that
      the handlers pass along without looking inside. */
  type Opaque = nat

  datatype Option<T> = None | Some(value: T)

  function Lookup<K, V>(m: map<K, V>, k: K): Option<V>
  {
    if k in m then Some(m[k]) else None
  }

  /** The three role descriptions of `models/roles.model`. */
  datatype Role = AlumnoRole | ProfesorRole | AdminRole

  /** `req.user`, decoded from the token by the authentication middleware. */
  datatype Requester = Requester(userId: Id, role: Role)

  /** Rows of the alumnos, profesores, inscripciones and usuarios tables, with
      the columns the handlers read. Flag columns are TINYINT values. */
  datatype Alumno = Alumno(id: Id, borrado: int)
  datatype Profesor = Profesor(id: Id, validado: int)
  datatype Inscripcion = Inscripcion(id: Id, alumnosId: Id, profesoresId: Id,
                                     estado: int, puntuacion: Option<int>)
  datatype Usuario = Usuario(id: Id, fields: Opaque)

  /** JavaScript truthiness of a TINYINT column. */
  predicate Truthy(flag: int)
  {
    flag != 0
  }

  /** What each lookup of the models layer returns, per key. */
  datatype Tables = Tables(
    alumnoByUserId: map<Id, Alumno>,            // alumnos.model getByUserId
    completeAlumnoByUserId: map<Id, Alumno>,    // alumnos.model getCompleteAlumnoByUserId
    profesorByUserId: map<Id, Profesor>,        // profesores.model getByUserId
    completeProfesorByUserId: map<Id, Profesor>,// profesores.model getCompleteProfesorByUserId
    profesorById: map<Id, Profesor>,            // profesores.model getById
    profesorByRamaId: map<Id, Profesor>,        // profesores.model getByRamaId
    inscripcionById: map<Id, Inscripcion>,      // inscripciones.model getById
    inscripcionByProfesorAlumno: map<(Id, Id), Inscripcion>, // getByAlumnoIdProfesorId(profesor, alumno)
    usuarioByEmailNotId: map<(string, Id), Usuario>,         // usuarios.model getByEmailNotId
    usuarioByUserNameNotId: map<(string, Id), Usuario>       // usuarios.model getByUserNameNotId
  )

  /** An alumno record that exists and is not logically deleted. */
  predicate ActiveAlumno(m: map<Id, Alumno>, userId: Id)
  {
    userId in m && !Truthy(m[userId].borrado)
  }

  /** A profesor record that exists and has been validated. */
  predicate ActiveProfesor(m: map<Id, Profesor>, userId: Id)
  {
    userId in m && Truthy(m[userId].validado)
  }

  /** Search filters from `req.body` and the optional `page`/`limit` query values. */
  datatype Query = Query(filters: Opaque, page: Option<nat>, limit: Option<nat>)

  /** Request bodies. */
  datatype OpinionBody = OpinionBody(id: Id, puntuacion: int, rest: Opaque)
  datatype MensajeBody = MensajeBody(idUsuarioDestino: Id, texto: string)
  datatype UserBody = UserBody(email: string, userName: string, id: Option<Id>, rest: Opaque)

  /** A JSON value and a JSON object, for the bodies the branch handlers echo. */
  datatype Json = JNum(n: int) | JStr(s: string) | JValue(v: Opaque)
  type JsonObject = map<string, Json>

  /** The opaque calls into the models layer, with their arguments. */
  datatype Call =
    // models/inscripciones.model
    | CreateInscripcion(alumnoId: Id, profesorId: Id)
    | AcceptInscripcion(inscripcionId: Id)
    | OpinionTrans(opinion: OpinionBody)
    | SearchInscripcionesByProfesorId(query: Query, profesorId: Id)
    | SearchInscripcionesByAlumnoId(query: Query, alumnoId: Id)
    // models/profesores.model
    | UpdatePuntuacionTrans(profesor: Profesor, variation: int)
    | AddPuntuacionTrans(profesor: Profesor, puntuacion: int)
    | ValidateProfesor(profesorId: Id)
    | LockProfesor(profesorId: Id)
    | SearchProfesores(query: Query)
    | SearchProfesoresByAlumnoId(query: Query, alumnoId: Id)
    | UpdateConfigurationFieldsTrans(userBody: UserBody)
    // models/alumnos.model
    | LogicDelete(alumnoId: Id)
    | LogicUndelete(alumnoId: Id)
    | SearchAlumnos(query: Query)
    | SearchAlumnosByTeacherId(query: Query, profesorId: Id)
    // models/mensajes.model
    | CreateMensaje(profesorId: Id, alumnoId: Id, autor: Id, destinatario: Id, texto: string)
    | GetMensajes(profesorFilter: Option<Id>, alumnoFilter: Option<Id>)
    | SetLeido(mensajeId: Id, destinatario: Id)
    | DeleteMensajeAlumno(mensajeId: Id, alumnoId: Id)
    | DeleteMensajeProfesor(mensajeId: Id, profesorId: Id)
    | DeleteConversacionAlumno(conversacionId: Id, alumnoId: Id)
    | DeleteConversacionProfesor(conversacionId: Id, profesorId: Id)
    // models/ramas.model
    | CreateRama(rama: JsonObject)
    | UpdateRama(ramaId: Id, rama: JsonObject)
    | RemoveRama(ramaId: Id)
    // models/usuarios.model
    | UpdateNotPasswordFieldsTrans(userId: Id, userBody: UserBody)

  /** What an awaited opaque call gives back: a value, or an exception it throws
      (identified by a tag so that a rethrow can be seen to be unchanged). */
  datatype Answer<T> = Returned(value: T) | Threw(error: nat)

  /** An exception that reaches a handler's outer `catch`. */
  datatype Fault =
    | NullDereference         // `.id` read on a lookup that resolved to null
    | ReferenceError(name: string) // an identifier that is not in scope
    | Thrown(error: nat)      // an exception thrown by an opaque call

  /** The JSON a handler answers with on success. */
  datatype Reply =
    | Success                 // the `success` object of helpers/success_utils
    | Value(value: Opaque)    // what the model call returned, passed through
    | Formatted(result: Opaque)   // `formatSearchResult` of what a search returned
    | Echo(object: JsonObject)
    | CompletedUser(usuario: Option<Usuario>) // `completeUser` of the re-read user

  /** How a request ends: a JSON reply, an explicit error status, or an
      exception handed to `manageRouterError`. */
  datatype Outcome = Ok(reply: Reply) | Status(code: nat) | Failed(fault: Fault)

  /** A handler's outcome and the opaque calls it issued, in order. */
  datatype Response = Response(outcome: Outcome, calls: seq<Call>)

  /** The `result.affectedRows == 0` test several handlers apply to what a write returns. */
  function AffectedRowsOutcome(a: Answer<nat>): (o: Outcome)
    ensures o == Status(404) <==> a == Returned(0)
    ensures o == Ok(Success) <==> a.Returned? && a.value > 0
    ensures a.Threw? <==> o.Failed?
    ensures a.Threw? ==> o == Failed(Thrown(a.error))
  {
    match a
    case Returned(n) => if n == 0 then Status(404) else Ok(Success)
    case Threw(e) => Failed(Thrown(e))
  }

  /** `res.json(formatSearchResult(result))`, or the search's exception. */
  function SearchOutcome(a: Answer<Opaque>): (o: Outcome)
    ensures o.Ok? <==> a.Returned?
    ensures a.Returned? ==> o.reply == Formatted(a.value)
    ensures a.Threw? ==> o == Failed(Thrown(a.error))
  {
    match a
    case Returned(v) => Ok(Formatted(v))
    case Threw(e) => Failed(Thrown(e))
  }

  /** An awaited write whose value the handler ignores: `Ok(reply)` or its exception. */
  function AwaitOutcome(a: Answer<()>, reply: Reply): (o: Outcome)
    ensures o == Ok(reply) <==> a.Returned?
    ensures a.Threw? ==> o == Failed(Thrown(a.error))
  {
    match a
    case Returned(_) => Ok(reply)
    case Threw(e) => Failed(Thrown(e))
  }
}
