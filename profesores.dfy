/** routes/private/profesores/profesores.private.js: an admin validates or
    locks a profesor, a profesor updates their own data, and admins or alumnos
    search profesores. */
module Profesores {
  import opened Models
  import opened Transactions
  import opened UserFields

  /** PUT /validate/:id by an admin. */
  function Validate(profesorId: Id, result: Answer<nat>): (r: Response)
    ensures r.calls == [ValidateProfesor(profesorId)]
    ensures r.outcome == Status(404) <==> result == Returned(0)
    ensures r.outcome == Ok(Success) <==> result.Returned? && result.value != 0
    ensures result.Threw? && r.calls != [] ==> r.outcome == Failed(Thrown(result.error))
  {
    Response(AffectedRowsOutcome(result), [ValidateProfesor(profesorId)])
  }

  /** PUT /lock/:id by an admin: the profesor goes back to not validated. */
  function Lock(profesorId: Id, result: Answer<nat>): (r: Response)
    ensures r.calls == [LockProfesor(profesorId)]
    ensures r.outcome == Status(404) <==> result == Returned(0)
    ensures r.outcome == Ok(Success) <==> result.Returned? && result.value != 0
    ensures result.Threw? && r.calls != [] ==> r.outcome == Failed(Thrown(result.error))
  {
    Response(AffectedRowsOutcome(result), [LockProfesor(profesorId)])
  }

  /** PUT /update/ by a profesor: 404 without a profesor record; otherwise
      `req.body.id` is overwritten with the requester's own profesor id and
      the request is handed to `updateUserFields`. */
  function UpdateRun(t: Tables, user: Requester, body: UserBody, reread: Option<Usuario>, f: Faults): (r: Run)
    ensures r.outcome == Status(404) <==> user.userId !in t.profesorByUserId
    ensures r.outcome.Ok? ==> r.outcome.reply == CompletedUser(reread)
  {
    var profesor := Lookup(t.profesorByUserId, user.userId);
    if profesor.None? then Run(Status(404), [], Idle)
    else UpdateUserFieldsRun(t, user, body.(id := Some(profesor.value.id)), ConfigurationFields, reread, f)
  }

  /** Without a profesor record nothing is written; with one, every
      configuration write carries the requester's own profesor id, whatever
      id the body held. */
  lemma UpdateTargetsOwnRecord(t: Tables, user: Requester, body: UserBody, reread: Option<Usuario>, f: Faults)
    ensures user.userId !in t.profesorByUserId ==>
              UpdateRun(t, user, body, reread, f) == Run(Status(404), [], Idle)
    ensures forall e :: e in UpdateRun(t, user, body, reread, f).events &&
                        e.Write? && e.call.UpdateConfigurationFieldsTrans? ==>
              user.userId in t.profesorByUserId &&
              e.call.userBody == body.(id := Some(t.profesorByUserId[user.userId].id))
  {
    if user.userId in t.profesorByUserId {
      var b := body.(id := Some(t.profesorByUserId[user.userId].id));
      UserFieldTransaction(user.userId, b, ConfigurationFields, f, CompletedUser(reread));
    }
  }

  /** Two update requests that differ only in the body's id do the same thing. */
  lemma UpdateIgnoresBodyId(t: Tables, user: Requester, body: UserBody, otherId: Option<Id>,
                            reread: Option<Usuario>, f: Faults)
    ensures UpdateRun(t, user, body.(id := otherId), reread, f) == UpdateRun(t, user, body, reread, f)
  {
  }

  method Update(st: Store, t: Tables, user: Requester, body: UserBody, reread: Option<Usuario>, f: Faults)
    returns (outcome: Outcome)
    requires st.tx == Idle
    modifies st
    ensures var run := UpdateRun(t, user, body, reread, f);
              outcome == run.outcome && st.log == old(st.log) + run.events && st.tx == run.tx
  {
    var profesor := Lookup(t.profesorByUserId, user.userId);
    if profesor.None? {
      return Status(404);
    }
    var request := body.(id := Some(profesor.value.id));
    outcome := UpdateUserFields(st, t, user, request, ConfigurationFields, reread, f);
  }

  /** POST /getSearch: an admin searches every profesor; any other requester
      (an alumno, by the role check) only the profesores of their own alumno record. */
  function GetSearch(t: Tables, user: Requester, q: Query, found: Answer<Opaque>): (r: Response)
    ensures user.role == AdminRole ==> r.calls == [SearchProfesores(q)]
    ensures user.role != AdminRole ==>
              && (user.userId !in t.alumnoByUserId <==> r.outcome == Status(404))
              && (user.userId !in t.alumnoByUserId ==> r.calls == [])
              && (user.userId in t.alumnoByUserId ==>
                    r.calls == [SearchProfesoresByAlumnoId(q, t.alumnoByUserId[user.userId].id)])
    ensures r.outcome.Ok? <==> r.calls != [] && found.Returned?
    ensures r.outcome.Ok? ==> r.outcome.reply == Formatted(found.value)
    ensures found.Threw? && r.calls != [] ==> r.outcome == Failed(Thrown(found.error))
  {
    if user.role == AdminRole then Response(SearchOutcome(found), [SearchProfesores(q)])
    else
      var alumno := Lookup(t.alumnoByUserId, user.userId);
      if alumno.None? then Response(Status(404), [])
      else Response(SearchOutcome(found), [SearchProfesoresByAlumnoId(q, alumno.value.id)])
  }
}
