/** routes/private/conversaciones/conversaciones.private.js: an alumno or a
    profesor deletes a conversation on their own side. */
module Conversaciones {
  import opened Models
  import opened Requesters

  /** DELETE /delete/:id. The conversation comes from the path; the side and the
      owner id come from the token's own active record. */
  function Delete(t: Tables, user: Requester, conversacionId: Id, result: Answer<nat>): (r: Response)
    ensures ActiveParty(t, user).None? <==> r == Response(Status(404), [])
    ensures user.role == AlumnoRole && ActiveAlumno(t.alumnoByUserId, user.userId) ==>
              r.calls == [DeleteConversacionAlumno(conversacionId, t.alumnoByUserId[user.userId].id)]
    ensures user.role != AlumnoRole && ActiveProfesor(t.profesorByUserId, user.userId) ==>
              r.calls == [DeleteConversacionProfesor(conversacionId, t.profesorByUserId[user.userId].id)]
    ensures r.calls != [] ==>
              && (r.outcome == Status(404) <==> result == Returned(0))
              && (r.outcome == Ok(Success) <==> result.Returned? && result.value != 0)
    ensures result.Threw? && r.calls != [] ==> r.outcome == Failed(Thrown(result.error))
  {
    match ActiveParty(t, user)
    case None => Response(Status(404), [])
    case Some(AlumnoParty(alumnoId)) =>
      Response(AffectedRowsOutcome(result), [DeleteConversacionAlumno(conversacionId, alumnoId)])
    case Some(ProfesorParty(profesorId)) =>
      Response(AffectedRowsOutcome(result), [DeleteConversacionProfesor(conversacionId, profesorId)])
  }
}
