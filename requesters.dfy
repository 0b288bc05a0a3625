/** How the messaging and conversation handlers resolve the requester to the
    alumno or profesor record that acts for them: an alumno token must map to
    an alumno record that is not `borrado`, any other token to a profesor
    record that is `validado`. The record is found from the token's user id
    alone; nothing in the request body takes part. */
module Requesters {
  import opened Models

  datatype Party = AlumnoParty(alumnoId: Id) | ProfesorParty(profesorId: Id)

  function PartyId(p: Party): Id
  {
    match p
    case AlumnoParty(a) => a
    case ProfesorParty(q) => q
  }

  /** The requester's own active record, or None where the handlers answer 404. */
  function ActiveParty(t: Tables, user: Requester): (p: Option<Party>)
    ensures p.Some? && p.value.AlumnoParty? <==>
              user.role == AlumnoRole && ActiveAlumno(t.alumnoByUserId, user.userId)
    ensures p.Some? && p.value.ProfesorParty? <==>
              user.role != AlumnoRole && ActiveProfesor(t.profesorByUserId, user.userId)
    ensures p.Some? && p.value.AlumnoParty? ==>
              p.value.alumnoId == t.alumnoByUserId[user.userId].id
    ensures p.Some? && p.value.ProfesorParty? ==>
              p.value.profesorId == t.profesorByUserId[user.userId].id
  {
    if user.role == AlumnoRole then
      if ActiveAlumno(t.alumnoByUserId, user.userId)
      then Some(AlumnoParty(t.alumnoByUserId[user.userId].id)) else None
    else
      if ActiveProfesor(t.profesorByUserId, user.userId)
      then Some(ProfesorParty(t.profesorByUserId[user.userId].id)) else None
  }
}
