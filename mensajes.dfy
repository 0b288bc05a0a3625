/** routes/private/mensajes/mensajes.private.js: alumnos and profesores send
    messages to each other, list their messages, mark a message read and
    delete a message on their own side. */
module Mensajes {
  import opened Models
  import opened Requesters

  /** The user ids of the two ends of a message: an alumno sender is the
      alumno and writes to a profesor user; any other sender is the profesor
      and writes to an alumno user. */
  function AlumnoUserId(user: Requester, body: MensajeBody): Id
  {
    if user.role == AlumnoRole then user.userId else body.idUsuarioDestino
  }

  function ProfesorUserId(user: Requester, body: MensajeBody): Id
  {
    if user.role == AlumnoRole then body.idUsuarioDestino else user.userId
  }

  /** POST /send. `created` is what the message `create` gives back. */
  function Send(t: Tables, user: Requester, body: MensajeBody, created: Answer<Opaque>): (r: Response)
    // 404 and no message when the alumno is missing or deleted, or the profesor missing or not
    // validated; otherwise the message is created
    ensures r == Response(Status(404), []) <==>
              !ActiveAlumno(t.completeAlumnoByUserId, AlumnoUserId(user, body)) ||
              !ActiveProfesor(t.completeProfesorByUserId, ProfesorUserId(user, body))
    ensures r.calls != [] <==>
              ActiveAlumno(t.completeAlumnoByUserId, AlumnoUserId(user, body)) &&
              ActiveProfesor(t.completeProfesorByUserId, ProfesorUserId(user, body))
    // otherwise one `create(profesor.id, alumno.id, autor, destinatario, texto)`, whoever sends;
    // `autor` is the sender's record, `destinatario` the other one
    ensures r.calls != [] ==>
              var alumnoId := t.completeAlumnoByUserId[AlumnoUserId(user, body)].id;
              var profesorId := t.completeProfesorByUserId[ProfesorUserId(user, body)].id;
              r.calls == [CreateMensaje(profesorId, alumnoId,
                                        if user.role == AlumnoRole then alumnoId else profesorId,
                                        if user.role == AlumnoRole then profesorId else alumnoId,
                                        body.texto)]
    ensures r.outcome.Ok? <==> r.calls != [] && created.Returned?
    ensures r.outcome.Ok? ==> r.outcome.reply == Value(created.value)
    ensures created.Threw? && r.calls != [] ==> r.outcome == Failed(Thrown(created.error))
  {
    var alumno := Lookup(t.completeAlumnoByUserId, AlumnoUserId(user, body));
    if alumno.None? || Truthy(alumno.value.borrado) then Response(Status(404), [])
    else
      var profesor := Lookup(t.completeProfesorByUserId, ProfesorUserId(user, body));
      if profesor.None? || !Truthy(profesor.value.validado) then Response(Status(404), [])
      else
        var autor := if user.role == AlumnoRole then alumno.value.id else profesor.value.id;
        var destinatario := if user.role == AlumnoRole then profesor.value.id else alumno.value.id;
        var call := CreateMensaje(profesor.value.id, alumno.value.id, autor, destinatario, body.texto);
        match created
        case Returned(mensaje) => Response(Ok(Value(mensaje)), [call])
        case Threw(e) => Response(Failed(Thrown(e)), [call])
  }

  /** An alumno writing to a profesor and that profesor writing back to the
      alumno create the same conversation (the same profesor and alumno ids,
      in the same positions); only `autor` and `destinatario` swap. */
  lemma SendSidesSwap(t: Tables, alumnoUser: Id, profesorUser: Id, texto: string, created: Answer<Opaque>)
    ensures var there := Send(t, Requester(alumnoUser, AlumnoRole), MensajeBody(profesorUser, texto), created);
            var back := Send(t, Requester(profesorUser, ProfesorRole), MensajeBody(alumnoUser, texto), created);
            && (there.calls == [] <==> back.calls == [])
            && (there.calls != [] ==>
                  var a, b := there.calls[0], back.calls[0];
                  a.profesorId == b.profesorId && a.alumnoId == b.alumnoId &&
                  a.autor == b.destinatario && a.destinatario == b.autor &&
                  a.autor == a.alumnoId && b.autor == b.profesorId)
  {
  }

  /** GET /allmessages: the messages of the requester's own active record. */
  function AllMessages(t: Tables, user: Requester, found: Answer<Opaque>): (r: Response)
    ensures ActiveParty(t, user).None? <==> r == Response(Status(404), [])
    ensures ActiveParty(t, user).Some? ==> |r.calls| == 1
    // exactly one of the two filters is set, to the requester's own record
    ensures r.calls != [] ==>
              && |r.calls| == 1 && r.calls[0].GetMensajes?
              && (r.calls[0].profesorFilter.None? <==> r.calls[0].alumnoFilter.Some?)
              && (user.role == AlumnoRole ==>
                    r.calls[0].alumnoFilter == Some(t.alumnoByUserId[user.userId].id))
              && (user.role != AlumnoRole ==>
                    r.calls[0].profesorFilter == Some(t.profesorByUserId[user.userId].id))
    ensures r.outcome.Ok? <==> r.calls != [] && found.Returned?
    ensures r.outcome.Ok? ==> r.outcome.reply == Value(found.value)
    ensures found.Threw? && r.calls != [] ==> r.outcome == Failed(Thrown(found.error))
  {
    match ActiveParty(t, user)
    case None => Response(Status(404), [])
    case Some(party) =>
      var call := match party
        case AlumnoParty(alumnoId) => GetMensajes(None, Some(alumnoId))
        case ProfesorParty(profesorId) => GetMensajes(Some(profesorId), None);
      match found
      case Returned(v) => Response(Ok(Value(v)), [call])
      case Threw(e) => Response(Failed(Thrown(e)), [call])
  }

  /** PUT /setread/:id: marks message `mensajeId` read for the requester's own record. */
  function SetRead(t: Tables, user: Requester, mensajeId: Id, result: Answer<nat>): (r: Response)
    ensures ActiveParty(t, user).None? <==> r == Response(Status(404), [])
    ensures ActiveParty(t, user).Some? ==>
              r.calls == [SetLeido(mensajeId, PartyId(ActiveParty(t, user).value))]
    ensures r.calls != [] ==>
              && (r.outcome == Status(404) <==> result == Returned(0))
              && (r.outcome == Ok(Success) <==> result.Returned? && result.value != 0)
    ensures result.Threw? && r.calls != [] ==> r.outcome == Failed(Thrown(result.error))
  {
    match ActiveParty(t, user)
    case None => Response(Status(404), [])
    case Some(party) => Response(AffectedRowsOutcome(result), [SetLeido(mensajeId, PartyId(party))])
  }

  /** DELETE /delete/:id: deletes message `mensajeId` on the requester's own side. */
  function Delete(t: Tables, user: Requester, mensajeId: Id, result: Answer<nat>): (r: Response)
    ensures ActiveParty(t, user).None? <==> r == Response(Status(404), [])
    ensures user.role == AlumnoRole && ActiveAlumno(t.alumnoByUserId, user.userId) ==>
              r.calls == [DeleteMensajeAlumno(mensajeId, t.alumnoByUserId[user.userId].id)]
    ensures user.role != AlumnoRole && ActiveProfesor(t.profesorByUserId, user.userId) ==>
              r.calls == [DeleteMensajeProfesor(mensajeId, t.profesorByUserId[user.userId].id)]
    ensures r.calls != [] ==>
              && (r.outcome == Status(404) <==> result == Returned(0))
              && (r.outcome == Ok(Success) <==> result.Returned? && result.value != 0)
    ensures result.Threw? && r.calls != [] ==> r.outcome == Failed(Thrown(result.error))
  {
    match ActiveParty(t, user)
    case None => Response(Status(404), [])
    case Some(AlumnoParty(alumnoId)) =>
      Response(AffectedRowsOutcome(result), [DeleteMensajeAlumno(mensajeId, alumnoId)])
    case Some(ProfesorParty(profesorId)) =>
      Response(AffectedRowsOutcome(result), [DeleteMensajeProfesor(mensajeId, profesorId)])
  }
}
