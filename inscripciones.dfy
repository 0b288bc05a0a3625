/** routes/private/inscripciones/inscripciones.private.js: an alumno signs up
    with a profesor, the profesor accepts, the alumno scores the profesor
    (inside a transaction), and both sides search their own enrollments. */
module Inscripciones {
  import opened Models
  import opened Transactions

  /** POST /signup/:id by an alumno, for the profesor with id `profesorId`;
      `created` is what `create` gives back. */
  function Signup(t: Tables, user: Requester, profesorId: Id, created: Answer<()>): (r: Response)
    // `(await getAlumnoByUserId(..)).id` on a missing alumno throws before anything else
    ensures user.userId !in t.alumnoByUserId ==> r == Response(Failed(NullDereference), [])
    ensures user.userId in t.alumnoByUserId ==>
      var alumnoId := t.alumnoByUserId[user.userId].id;
      // a duplicate enrollment is refused first, before the profesor is looked at
      && ((profesorId, alumnoId) in t.inscripcionByProfesorAlumno ==> r == Response(Status(400), []))
      && ((profesorId, alumnoId) !in t.inscripcionByProfesorAlumno ==>
            && (profesorId !in t.profesorById ==> r == Response(Status(404), []))
            && (profesorId in t.profesorById && t.profesorById[profesorId].validado == 0 ==>
                  r == Response(Status(400), [])))
      // `create` is issued exactly when every guard passes, with (alumno, profesor)
      && (r.calls != [] <==>
            (profesorId, alumnoId) !in t.inscripcionByProfesorAlumno &&
            profesorId in t.profesorById && t.profesorById[profesorId].validado != 0)
      && (r.calls != [] ==> r.calls == [CreateInscripcion(alumnoId, profesorId)])
    ensures r.outcome == Ok(Success) <==> r.calls != [] && created.Returned?
    ensures created.Threw? && r.calls != [] ==> r.outcome == Failed(Thrown(created.error))
  {
    var alumno := Lookup(t.alumnoByUserId, user.userId);
    if alumno.None? then Response(Failed(NullDereference), [])
    else
      var alumnoId := alumno.value.id;
      if Lookup(t.inscripcionByProfesorAlumno, (profesorId, alumnoId)).Some? then
        Response(Status(400), [])
      else
        var profesor := Lookup(t.profesorById, profesorId);
        if profesor.None? then Response(Status(404), [])
        else if profesor.value.validado == 0 then Response(Status(400), [])
        else Response(AwaitOutcome(created, Success), [CreateInscripcion(alumnoId, profesorId)])
  }

  /** PUT /accept/:id by a profesor, for the enrollment `inscripcionId`. */
  function Accept(t: Tables, user: Requester, inscripcionId: Id, accepted: Answer<()>): (r: Response)
    ensures user.userId !in t.profesorByUserId ==> r == Response(Failed(NullDereference), [])
    ensures user.userId in t.profesorByUserId ==>
      var profesorId := t.profesorByUserId[user.userId].id;
      && (inscripcionId !in t.inscripcionById ==> r == Response(Status(404), []))
      && ((inscripcionId in t.inscripcionById &&
           t.inscripcionById[inscripcionId].profesoresId != profesorId) ==> r == Response(Status(401), []))
      // only the profesor the enrollment was made to can accept it
      && (r.calls != [] <==>
            inscripcionId in t.inscripcionById &&
            t.inscripcionById[inscripcionId].profesoresId == profesorId)
      && (r.calls != [] ==> r.calls == [AcceptInscripcion(inscripcionId)])
    ensures r.outcome == Ok(Success) <==> r.calls != [] && accepted.Returned?
    ensures accepted.Threw? && r.calls != [] ==> r.outcome == Failed(Thrown(accepted.error))
  {
    var profesor := Lookup(t.profesorByUserId, user.userId);
    if profesor.None? then Response(Failed(NullDereference), [])
    else
      var inscripcion := Lookup(t.inscripcionById, inscripcionId);
      if inscripcion.None? then Response(Status(404), [])
      else if inscripcion.value.profesoresId != profesor.value.id then Response(Status(401), [])
      else Response(AwaitOutcome(accepted, Success), [AcceptInscripcion(inscripcionId)])
  }

  /** The rating write of the opinion handler: with a prior score the profesor
      receives the variation `new - old` (even when it is 0), without one the
      new score itself. */
  function RatingWrite(profesor: Profesor, prior: Option<int>, puntuacion: int): (c: Call)
    // a new score is added exactly when there was none; either way the write targets the
    // enrollment's profesor and leaves the new score in place of the prior one
    ensures c.AddPuntuacionTrans? <==> prior.None?
    ensures c.UpdatePuntuacionTrans? || c.AddPuntuacionTrans?
    ensures c.profesor == profesor
    ensures (if prior.Some? then prior.value else 0) + Pushed(c) == puntuacion
  {
    if prior.Some? then UpdatePuntuacionTrans(profesor, puntuacion - prior.value)
    else AddPuntuacionTrans(profesor, puntuacion)
  }

  /** The outcome of the opinion handler's guard chain: a refusal, or the
      rating write to perform. */
  datatype Decision = Rejected(code: nat) | Proceed(rating: Call)

  /** The four ordered checks of the opinion handler; the first one that fails decides. */
  function OpinionGuards(t: Tables, alumnoId: Id, body: OpinionBody): (d: Decision)
    ensures body.id !in t.inscripcionById ==> d == Rejected(404)
    ensures body.id in t.inscripcionById ==>
      var ins := t.inscripcionById[body.id];
      && (ins.alumnosId != alumnoId ==> d == Rejected(401))
      && (ins.alumnosId == alumnoId && ins.estado == 0 ==> d == Rejected(401))
      && (ins.alumnosId == alumnoId && ins.estado != 0 && ins.profesoresId !in t.profesorById ==>
            d == Rejected(401))
      && (d.Proceed? <==>
            ins.alumnosId == alumnoId && ins.estado != 0 && ins.profesoresId in t.profesorById)
      // with a prior score the profesor receives new - old, without one the new score itself
      && (d.Proceed? && ins.puntuacion.Some? ==>
            d.rating == UpdatePuntuacionTrans(t.profesorById[ins.profesoresId],
                                              body.puntuacion - ins.puntuacion.value))
      && (d.Proceed? && ins.puntuacion.None? ==>
            d.rating == AddPuntuacionTrans(t.profesorById[ins.profesoresId], body.puntuacion))
  {
    var inscripcion := Lookup(t.inscripcionById, body.id);
    if inscripcion.None? then Rejected(404)
    else
      var ins := inscripcion.value;
      if ins.alumnosId != alumnoId then Rejected(401)
      else if ins.estado == 0 then Rejected(401)
      else
        var profesor := Lookup(t.profesorById, ins.profesoresId);
        if profesor.None? then Rejected(401)
        else Proceed(RatingWrite(profesor.value, ins.puntuacion, body.puntuacion))
  }

  /** The writes the opinion handler protects: the rating write, then `opinionTrans`,
      both on the handle. */
  function OpinionSteps(rating: Call, body: OpinionBody, f: Faults): seq<Step>
  {
    [Step(rating, true, f.first), Step(OpinionTrans(body), true, f.second)]
  }

  /** The whole PUT /opinion request, as the code is written: the guards run
      after `beginTransaction`, and a guard's early return leaves the handle Open. */
  function OpinionRun(t: Tables, user: Requester, body: OpinionBody, f: Faults): (r: Run)
    ensures r.tx == Idle <==> user.userId !in t.alumnoByUserId
    ensures r.tx == Idle ==> r.outcome == Failed(NullDereference) && r.events == []
    ensures r.tx == Open <==>
              user.userId in t.alumnoByUserId &&
              OpinionGuards(t, t.alumnoByUserId[user.userId].id, body).Rejected?
    ensures r.tx == Open ==>
              r.events == [Begin] &&
              r.outcome == Status(OpinionGuards(t, t.alumnoByUserId[user.userId].id, body).code)
    // commit happens only once both writes have succeeded, and it is the last event
    ensures r.tx == Committed <==>
              user.userId in t.alumnoByUserId &&
              OpinionGuards(t, t.alumnoByUserId[user.userId].id, body).Proceed? &&
              f.first.None? && f.second.None? && f.commit.None?
    ensures r.tx == Committed ==>
              r.outcome == Ok(Success) &&
              r.events == [Begin,
                           Write(OpinionGuards(t, t.alumnoByUserId[user.userId].id, body).rating, true),
                           Write(OpinionTrans(body), true),
                           Commit]
    // any exception in the protected region is followed by rollBack and rethrown unchanged
    ensures r.tx == RolledBack ==>
              r.events != [] && r.events[|r.events| - 1] == RollBack &&
              r.outcome == Failed(Thrown(if f.first.Some? then f.first.value
                                         else if f.second.Some? then f.second.value
                                         else f.commit.value))
  {
    var alumno := Lookup(t.alumnoByUserId, user.userId);
    if alumno.None? then Run(Failed(NullDereference), [], Idle)
    else
      match OpinionGuards(t, alumno.value.id, body)
      case Rejected(code) => Run(Status(code), [Begin], Open)
      case Proceed(rating) => Transact(OpinionSteps(rating, body, f), f.commit, Success)
  }

  /** Lines 128-142 against the store `st`, whose transaction the handler has
      already begun: the rating write, `opinionTrans`, `commit`, and `rollBack`
      after any exception, which is rethrown. */
  method ProtectedOpinion(st: Store, rating: Call, body: OpinionBody, f: Faults)
    returns (thrown: Option<nat>)
    requires st.tx == Open
    modifies st
    ensures var region := Region(OpinionSteps(rating, body, f), f.commit);
              thrown == region.error && st.log == old(st.log) + region.events &&
              st.tx == if thrown.None? then Committed else RolledBack
  {
    ghost var steps := OpinionSteps(rating, body, f);
    TwoStepRegion(steps[0], steps[1], f.commit);
    ghost var w1, w2 := Write(rating, true), Write(OpinionTrans(body), true);
    thrown := st.Issue(rating, true, f.first);
    ghost var done := [w1];
    assert st.log == old(st.log) + done;
    if thrown.None? {
      thrown := st.Issue(OpinionTrans(body), true, f.second);
      done := done + [w2];
      assert st.log == old(st.log) + done;
      if thrown.None? {
        thrown := st.CommitTransaction(f.commit);
        done := done + [Commit];
        assert st.log == old(st.log) + done;
      }
    }
    if thrown.Some? {
      st.RollBackTransaction();
      done := done + [RollBack];
    }
    assert done == Region(steps, f.commit).events;
  }

  /** PUT /opinion by an alumno against the store `st`; `f` says which of the
      rating write, `opinionTrans` and `commit` throw. */
  method Opinion(st: Store, t: Tables, user: Requester, body: OpinionBody, f: Faults)
    returns (outcome: Outcome)
    requires st.tx == Idle
    modifies st
    ensures var run := OpinionRun(t, user, body, f);
              outcome == run.outcome && st.log == old(st.log) + run.events && st.tx == run.tx
  {
    var alumno := Lookup(t.alumnoByUserId, user.userId);
    if alumno.None? {
      return Failed(NullDereference);
    }
    st.BeginTransaction();
    var decision := OpinionGuards(t, alumno.value.id, body);
    if decision.Rejected? {
      return Status(decision.code);
    }
    var thrown := ProtectedOpinion(st, decision.rating, body, f);
    if thrown.Some? {
      return Failed(Thrown(thrown.value));
    }
    return Ok(Success);
  }

  /** What a rating write adds to the profesor's running total: the score
      itself, or the variation. */
  function Pushed(c: Call): int
  {
    match c
    case UpdatePuntuacionTrans(_, variation) => variation
    case AddPuntuacionTrans(_, puntuacion) => puntuacion
    case _ => 0
  }

  function NetPushed(ws: seq<Call>): int
  {
    if ws == [] then 0 else Pushed(ws[0]) + NetPushed(ws[1..])
  }

  /** How many of the writes add a new score (rather than revise one). */
  function AddCount(ws: seq<Call>): nat
  {
    if ws == [] then 0 else (if ws[0].AddPuntuacionTrans? then 1 else 0) + AddCount(ws[1..])
  }

  /** The rating writes of successive opinions on one enrollment, each request
      finding, as prior score, the score the previous request stored. */
  function RatingHistory(profesor: Profesor, prior: Option<int>, scores: seq<int>): seq<Call>
    decreases |scores|
  {
    if scores == [] then []
    else [RatingWrite(profesor, prior, scores[0])] + RatingHistory(profesor, Some(scores[0]), scores[1..])
  }

  /** Over any history of opinions on one enrollment, the writes push exactly
      the latest score minus the score it started with, and add a score once
      at most: once if the enrollment started unscored, never otherwise. */
  lemma {:induction false} RatingHistoryTelescopes(profesor: Profesor, prior: Option<int>, scores: seq<int>)
    requires scores != []
    ensures NetPushed(RatingHistory(profesor, prior, scores)) ==
              scores[|scores| - 1] - (if prior.Some? then prior.value else 0)
    ensures AddCount(RatingHistory(profesor, prior, scores)) == (if prior.None? then 1 else 0)
    decreases |scores|
  {
    var h := RatingHistory(profesor, prior, scores);
    var tail := RatingHistory(profesor, Some(scores[0]), scores[1..]);
    assert h == [RatingWrite(profesor, prior, scores[0])] + tail;
    assert h[1..] == tail;
    if |scores| > 1 {
      RatingHistoryTelescopes(profesor, Some(scores[0]), scores[1..]);
    } else {
      assert tail == [];
    }
  }

  /** Revising a score from a to b and then from b to b pushes b - a in all,
      the same as the single revision a -> b. */
  lemma RevisionTwiceSameAsOnce(profesor: Profesor, a: int, b: int)
    ensures NetPushed(RatingHistory(profesor, Some(a), [b, b])) ==
            NetPushed(RatingHistory(profesor, Some(a), [b])) == b - a
  {
    RatingHistoryTelescopes(profesor, Some(a), [b, b]);
    RatingHistoryTelescopes(profesor, Some(a), [b]);
  }

  /** An opinion that repeats the stored score still issues the rating update,
      with variation 0. */
  lemma UnchangedScoreStillUpdates(t: Tables, user: Requester, body: OpinionBody, f: Faults)
    requires user.userId in t.alumnoByUserId && body.id in t.inscripcionById
    requires var ins := t.inscripcionById[body.id];
               ins.alumnosId == t.alumnoByUserId[user.userId].id && ins.estado != 0 &&
               ins.profesoresId in t.profesorById && ins.puntuacion == Some(body.puntuacion)
    ensures var ins := t.inscripcionById[body.id];
              OpinionRun(t, user, body, f).events[1] ==
              Write(UpdatePuntuacionTrans(t.profesorById[ins.profesoresId], 0), true)
  {
  }

  /** POST /profesores/getSearch: a profesor searches the enrollments made to
      them; the scope is the profesor record of the token's user. */
  function SearchForProfesor(t: Tables, user: Requester, q: Query, found: Answer<Opaque>): (r: Response)
    ensures r.outcome == Status(401) <==> user.userId !in t.profesorByUserId
    ensures user.userId !in t.profesorByUserId ==> r.calls == []
    ensures user.userId in t.profesorByUserId ==>
              r.calls == [SearchInscripcionesByProfesorId(q, t.profesorByUserId[user.userId].id)]
    ensures r.outcome.Ok? <==> user.userId in t.profesorByUserId && found.Returned?
    ensures r.outcome.Ok? ==> r.outcome.reply == Formatted(found.value)
    ensures found.Threw? && r.calls != [] ==> r.outcome == Failed(Thrown(found.error))
  {
    var profesor := Lookup(t.profesorByUserId, user.userId);
    if profesor.None? then Response(Status(401), [])
    else Response(SearchOutcome(found), [SearchInscripcionesByProfesorId(q, profesor.value.id)])
  }

  /** POST /alumnos/getSearch: an alumno searches their own enrollments. */
  function SearchForAlumno(t: Tables, user: Requester, q: Query, found: Answer<Opaque>): (r: Response)
    ensures r.outcome == Status(401) <==> user.userId !in t.alumnoByUserId
    ensures user.userId !in t.alumnoByUserId ==> r.calls == []
    ensures user.userId in t.alumnoByUserId ==>
              r.calls == [SearchInscripcionesByAlumnoId(q, t.alumnoByUserId[user.userId].id)]
    ensures r.outcome.Ok? <==> user.userId in t.alumnoByUserId && found.Returned?
    ensures r.outcome.Ok? ==> r.outcome.reply == Formatted(found.value)
    ensures found.Threw? && r.calls != [] ==> r.outcome == Failed(Thrown(found.error))
  {
    var alumno := Lookup(t.alumnoByUserId, user.userId);
    if alumno.None? then Response(Status(401), [])
    else Response(SearchOutcome(found), [SearchInscripcionesByAlumnoId(q, alumno.value.id)])
  }
}
