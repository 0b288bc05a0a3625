/** routes/private/ramas/ramas.private.js: an admin creates, updates and
    deletes branches (ramas). Create and update answer with `{id, ...body}`;
    delete is refused while a profesor is linked to the branch. */
module Ramas {
  import opened Models

  /** The object literal `{id, ...body}`: the id first, then every property of
      the body, so a body that carries its own `id` overrides it. */
  function WithId(id: Id, body: JsonObject): (o: JsonObject)
    ensures o.Keys == body.Keys + {"id"}
    ensures forall k :: k in body ==> o[k] == body[k]
    ensures "id" !in body ==> o["id"] == JNum(id)
  {
    map["id" := JNum(id)] + body
  }

  /** POST / by an admin: `create`, then the new `insertId` merged with the body. */
  function Create(body: JsonObject, created: Answer<Id>): (r: Response)
    ensures r.calls == [CreateRama(body)]
    ensures r.outcome.Ok? <==> created.Returned?
    ensures r.outcome.Ok? ==> r.outcome.reply == Echo(WithId(created.value, body))
    ensures created.Threw? && r.calls != [] ==> r.outcome == Failed(Thrown(created.error))
  {
    match created
    case Returned(insertId) => Response(Ok(Echo(WithId(insertId, body))), [CreateRama(body)])
    case Threw(e) => Response(Failed(Thrown(e)), [CreateRama(body)])
  }

  /** PUT /:id by an admin. */
  function Update(ramaId: Id, body: JsonObject, result: Answer<nat>): (r: Response)
    ensures r.calls == [UpdateRama(ramaId, body)]
    ensures r.outcome == Status(404) <==> result == Returned(0)
    ensures r.outcome.Ok? <==> result.Returned? && result.value != 0
    ensures r.outcome.Ok? ==> r.outcome.reply == Echo(WithId(ramaId, body))
    ensures result.Threw? && r.calls != [] ==> r.outcome == Failed(Thrown(result.error))
  {
    match result
    case Returned(n) =>
      if n == 0 then Response(Status(404), [UpdateRama(ramaId, body)])
      else Response(Ok(Echo(WithId(ramaId, body))), [UpdateRama(ramaId, body)])
    case Threw(e) => Response(Failed(Thrown(e)), [UpdateRama(ramaId, body)])
  }

  /** DELETE /:id by an admin: 409 without removing while a profesor is linked
      to the branch; otherwise `remove`, and 404 when it affects no row. */
  function Delete(t: Tables, ramaId: Id, removed: Answer<nat>): (r: Response)
    ensures ramaId in t.profesorByRamaId <==> r.outcome == Status(409)
    ensures ramaId in t.profesorByRamaId <==> r.calls == []
    ensures ramaId !in t.profesorByRamaId ==>
              && r.calls == [RemoveRama(ramaId)]
              && (r.outcome == Status(404) <==> removed == Returned(0))
              && (r.outcome == Ok(Success) <==> removed.Returned? && removed.value != 0)
    ensures removed.Threw? && r.calls != [] ==> r.outcome == Failed(Thrown(removed.error))
  {
    if Lookup(t.profesorByRamaId, ramaId).Some? then Response(Status(409), [])
    else Response(AffectedRowsOutcome(removed), [RemoveRama(ramaId)])
  }
}
