/** routes/private/alumnos/alumnos.private.js: an alumno updates their own
    data, an admin logically deletes or restores an alumno, and admins or
    profesores search alumnos. */
module Alumnos {
  import opened Models
  import opened Transactions
  import opened UserFields

  /** PUT /update/ by an alumno: `updateUserFields` with a role-specific update
      that does nothing, so only the user fields are written. */
  method Update(st: Store, t: Tables, user: Requester, body: UserBody, reread: Option<Usuario>, f: Faults)
    returns (outcome: Outcome)
    requires st.tx == Idle
    modifies st
    ensures var run := UpdateUserFieldsRun(t, user, body, NoRoleFields, reread, f);
              outcome == run.outcome && st.log == old(st.log) + run.events && st.tx == run.tx
    ensures forall e :: e in st.log[|old(st.log)|..] && e.Write? ==>
              e == Write(UpdateNotPasswordFieldsTrans(user.userId, body), false)
  {
    outcome := UpdateUserFields(st, t, user, body, NoRoleFields, reread, f);
    ghost var run := UpdateUserFieldsRun(t, user, body, NoRoleFields, reread, f);
    UpdateUserFieldsRunProperties(t, user, body, NoRoleFields, reread, f, run);
    assert st.log[|old(st.log)|..] == run.events;
  }

  /** DELETE /delete/:id by an admin. */
  function LogicDeleteAlumno(alumnoId: Id, result: Answer<nat>): (r: Response)
    ensures r.calls == [LogicDelete(alumnoId)]
    ensures r.outcome == Status(404) <==> result == Returned(0)
    ensures r.outcome == Ok(Success) <==> result.Returned? && result.value != 0
    ensures result.Threw? && r.calls != [] ==> r.outcome == Failed(Thrown(result.error))
  {
    Response(AffectedRowsOutcome(result), [LogicDelete(alumnoId)])
  }

  /** PUT /undelete/:id by an admin. */
  function LogicUndeleteAlumno(alumnoId: Id, result: Answer<nat>): (r: Response)
    ensures r.calls == [LogicUndelete(alumnoId)]
    ensures r.outcome == Status(404) <==> result == Returned(0)
    ensures r.outcome == Ok(Success) <==> result.Returned? && result.value != 0
    ensures result.Threw? && r.calls != [] ==> r.outcome == Failed(Thrown(result.error))
  {
    Response(AffectedRowsOutcome(result), [LogicUndelete(alumnoId)])
  }

  /** POST /getSearch: an admin searches every alumno; any other requester (a
      profesor, by the role check) only the alumnos of their own profesor record. */
  function GetSearch(t: Tables, user: Requester, q: Query, found: Answer<Opaque>): (r: Response)
    ensures user.role == AdminRole ==> r.calls == [SearchAlumnos(q)]
    ensures user.role != AdminRole ==>
              && (user.userId !in t.profesorByUserId <==> r.outcome == Status(404))
              && (user.userId !in t.profesorByUserId ==> r.calls == [])
              && (user.userId in t.profesorByUserId ==>
                    r.calls == [SearchAlumnosByTeacherId(q, t.profesorByUserId[user.userId].id)])
    ensures r.outcome.Ok? <==> r.calls != [] && found.Returned?
    ensures r.outcome.Ok? ==> r.outcome.reply == Formatted(found.value)
    ensures found.Threw? && r.calls != [] ==> r.outcome == Failed(Thrown(found.error))
  {
    if user.role == AdminRole then Response(SearchOutcome(found), [SearchAlumnos(q)])
    else
      var profesor := Lookup(t.profesorByUserId, user.userId);
      if profesor.None? then Response(Status(404), [])
      else Response(SearchOutcome(found), [SearchAlumnosByTeacherId(q, profesor.value.id)])
  }
}
