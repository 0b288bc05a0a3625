/** routes/private/updateUserFields.js: the shared body of the alumno and
    profesor "update my data" handlers. The user updated is always the token's
    user; an email or userName already taken by another user stops the update
    before any transaction; then the user fields, the re-read and the
    role-specific fields run in a protected region that commits last. */
module UserFields {
  import opened Models
  import opened Transactions

  /** The role-specific update the caller passes in: the profesores handler
      passes `updateConfigurationFieldsTrans`, the alumnos handler a function
      that does nothing. */
  datatype RoleFields = NoRoleFields | ConfigurationFields

  /** The writes of the protected region. The user-fields update is not handed
      `db`; the role-specific update is. */
  function UserFieldSteps(userId: Id, body: UserBody, role: RoleFields, f: Faults): seq<Step>
  {
    [Step(UpdateNotPasswordFieldsTrans(userId, body), false, f.first)] +
    (if role == ConfigurationFields then [Step(UpdateConfigurationFieldsTrans(body), true, f.second)] else [])
  }

  /** The events of the update's transaction, spelled out: the user-fields
      write, then (for a profesor) the configuration write, then `commit`,
      cut short by the first exception and closed by `rollBack` after one. */
  function UserFieldEvents(userId: Id, body: UserBody, role: RoleFields, f: Faults): seq<Event>
  {
    var w1 := Write(UpdateNotPasswordFieldsTrans(userId, body), false);
    var w2 := Write(UpdateConfigurationFieldsTrans(body), true);
    if f.first.Some? then [Begin, w1, RollBack]
    else if role == ConfigurationFields && f.second.Some? then [Begin, w1, w2, RollBack]
    else
      var ws := if role == ConfigurationFields then [Begin, w1, w2] else [Begin, w1];
      if f.commit.Some? then ws + [Commit, RollBack] else ws + [Commit]
  }

  /** The exception the update's transaction rethrows, if any. */
  function UserFieldError(role: RoleFields, f: Faults): Option<nat>
  {
    if f.first.Some? then f.first
    else if role == ConfigurationFields && f.second.Some? then f.second
    else f.commit
  }

  lemma UserFieldTransaction(userId: Id, body: UserBody, role: RoleFields, f: Faults, reply: Reply)
    ensures var run := Transact(UserFieldSteps(userId, body, role, f), f.commit, reply);
      var error := UserFieldError(role, f);
      run == Run(if error.None? then Ok(reply) else Failed(Thrown(error.value)),
                 UserFieldEvents(userId, body, role, f),
                 if error.None? then Committed else RolledBack)
  {
    var steps := UserFieldSteps(userId, body, role, f);
    var s1 := Step(UpdateNotPasswordFieldsTrans(userId, body), false, f.first);
    if role == ConfigurationFields {
      var s2 := Step(UpdateConfigurationFieldsTrans(body), true, f.second);
      assert steps == [s1, s2];
      TwoStepRegion(s1, s2, f.commit);
    } else {
      assert steps == [s1];
      OneStepRegion(s1, f.commit);
    }
  }

  /** Neither `getErrorFieldStr` nor `ErrorType` is in scope in the file, so
      building the 400 message of either conflict branch throws; the outer
      `catch` receives that exception instead of a 400 being sent. */
  const ConflictFault: Fault := ReferenceError("getErrorFieldStr")

  /** One update request. `reread` is what `getById` gives back once the user
      fields are written; `f` says which of the user-fields write, the
      role-specific write and `commit` throw. */
  function UpdateUserFieldsRun(t: Tables, user: Requester, body: UserBody, role: RoleFields,
                               reread: Option<Usuario>, f: Faults): (r: Run)
    ensures r.outcome.Ok? ==> r.outcome == Ok(CompletedUser(reread)) && r.tx == Committed
    // no explicit status is ever sent: both 400 branches throw instead
    ensures !r.outcome.Status?
  {
    if Lookup(t.usuarioByEmailNotId, (body.email, user.userId)).Some? then
      Run(Failed(ConflictFault), [], Idle)
    else if Lookup(t.usuarioByUserNameNotId, (body.userName, user.userId)).Some? then
      Run(Failed(ConflictFault), [], Idle)
    else
      Transact(UserFieldSteps(user.userId, body, role, f), f.commit, CompletedUser(reread))
  }

  /** What the source promises of one update request. */
  lemma UpdateUserFieldsRunProperties(t: Tables, user: Requester, body: UserBody, role: RoleFields,
                                      reread: Option<Usuario>, f: Faults, run: Run)
    requires run == UpdateUserFieldsRun(t, user, body, role, reread, f)
    // either conflict (the email is checked first) stops the update before anything is written
    ensures run.tx == Idle <==>
              (body.email, user.userId) in t.usuarioByEmailNotId ||
              (body.userName, user.userId) in t.usuarioByUserNameNotId
    ensures run.tx == Idle ==> run.outcome == Failed(ConflictFault) && run.events == []
    // inside the transaction: the token's user is updated first, off the handle
    ensures run.tx != Idle ==>
              |run.events| >= 2 && run.events[0] == Begin &&
              run.events[1] == Write(UpdateNotPasswordFieldsTrans(user.userId, body), false)
    // then the role-specific update, on the handle
    ensures run.tx != Idle && role == ConfigurationFields && f.first.None? ==>
              |run.events| >= 3 && run.events[2] == Write(UpdateConfigurationFieldsTrans(body), true)
    ensures role == NoRoleFields ==>
              forall e :: e in run.events && e.Write? ==>
                e == Write(UpdateNotPasswordFieldsTrans(user.userId, body), false)
    ensures run.tx != Open
    // commit comes last, and only when every write succeeded; the reply is the re-read user
    ensures run.tx == Committed <==>
              run.tx != Idle && f.first.None? &&
              (role == ConfigurationFields ==> f.second.None?) && f.commit.None?
    ensures run.tx == Committed ==>
              run.outcome == Ok(CompletedUser(reread)) && run.events[|run.events| - 1] == Commit
    // an exception in the region is followed by rollBack and reaches the outer catch unchanged
    ensures run.tx == RolledBack ==>
              run.events[|run.events| - 1] == RollBack &&
              run.outcome == Failed(Thrown(
                if f.first.Some? then f.first.value
                else if role == ConfigurationFields && f.second.Some? then f.second.value
                else f.commit.value))
  {
    UserFieldTransaction(user.userId, body, role, f, CompletedUser(reread));
  }

  /** A request without conflicts runs the update's transaction, spelled out. */
  lemma UpdateUserFieldsClosedForm(t: Tables, user: Requester, body: UserBody, role: RoleFields,
                                   reread: Option<Usuario>, f: Faults)
    requires (body.email, user.userId) !in t.usuarioByEmailNotId
    requires (body.userName, user.userId) !in t.usuarioByUserNameNotId
    ensures var error := UserFieldError(role, f);
      UpdateUserFieldsRun(t, user, body, role, reread, f) ==
        Run(if error.None? then Ok(CompletedUser(reread)) else Failed(Thrown(error.value)),
            UserFieldEvents(user.userId, body, role, f),
            if error.None? then Committed else RolledBack)
  {
    UserFieldTransaction(user.userId, body, role, f, CompletedUser(reread));
  }

  /** Lines 25-36 against the store `st`: `beginTransaction`, the user-fields
      write, the role-specific write, `commit`, and `rollBack` after any
      exception, which is rethrown. */
  method ProtectedUpdate(st: Store, id: Id, body: UserBody, role: RoleFields, f: Faults)
    returns (thrown: Option<nat>)
    requires st.tx == Idle
    modifies st
    ensures thrown == UserFieldError(role, f)
    ensures st.log == old(st.log) + UserFieldEvents(id, body, role, f)
    ensures st.tx == if thrown.None? then Committed else RolledBack
  {
    ghost var w1, w2 := Write(UpdateNotPasswordFieldsTrans(id, body), false),
                        Write(UpdateConfigurationFieldsTrans(body), true);
    st.BeginTransaction();
    thrown := st.Issue(UpdateNotPasswordFieldsTrans(id, body), false, f.first);
    ghost var done := [Begin, w1];
    assert st.log == old(st.log) + done;
    if thrown.None? {
      if role == ConfigurationFields {
        thrown := st.Issue(UpdateConfigurationFieldsTrans(body), true, f.second);
        done := done + [w2];
        assert st.log == old(st.log) + done;
      }
      if thrown.None? {
        thrown := st.CommitTransaction(f.commit);
        done := done + [Commit];
        assert st.log == old(st.log) + done;
      }
    }
    if thrown.Some? {
      st.RollBackTransaction();
      done := done + [RollBack];
    }
    assert done == UserFieldEvents(id, body, role, f);
  }

  /** `updateUserFields(req, res, updateNoUserFields)` against the store `st`;
      the user re-read by `getById` inside the region is `reread`. */
  method UpdateUserFields(st: Store, t: Tables, user: Requester, body: UserBody, role: RoleFields,
                          reread: Option<Usuario>, f: Faults) returns (outcome: Outcome)
    requires st.tx == Idle
    modifies st
    ensures var run := UpdateUserFieldsRun(t, user, body, role, reread, f);
              outcome == run.outcome && st.log == old(st.log) + run.events && st.tx == run.tx
  {
    var id := user.userId;
    var usuario := Lookup(t.usuarioByEmailNotId, (body.email, id));
    if usuario.Some? {
      return Failed(ConflictFault);
    }
    usuario := Lookup(t.usuarioByUserNameNotId, (body.userName, id));
    if usuario.Some? {
      return Failed(ConflictFault);
    }
    UpdateUserFieldsClosedForm(t, user, body, role, reread, f);
    var thrown := ProtectedUpdate(st, id, body, role, f);
    if thrown.Some? {
      return Failed(Thrown(thrown.value));
    }
    return Ok(CompletedUser(reread));
  }
}
