/** What each use case answers and leaves behind, for every table, cache, wiring and environment, in the terms of its
    caller: who gets which reply, what the table holds afterwards, and what the cache holds and for how long. */
module CallLaws {
  import opened Options
  import opened Errors
  import opened Domain
  import opened Database
  import opened StoreMachine
  import opened UseCases

  /** The code of the error that a reply carries. */
  function ReplyCode(reply: Reply): Option<Code> {
    if reply.Fail? then CodeOf(Some(reply.error)) else None
  }

  lemma WrappedCode(context: string, e: Error)
    ensures ReplyCode(Fail(Wrapped(context, e))) == CodeOf(Some(e))
  {
    WrappingIsTransparent([context], e);
    assert WrapAll([context], e) == Wrapped(context, e);
  }

  /** Add succeeds exactly when the statement is served and no row has the id, the username or the email; it answers
      DuplicateKey exactly when one has. The row is written, without an answer to show for it, when only the answer is
      lost; the cache is told of a success alone. */
  lemma AddExactly(cfg: Config, rows: Table, cache: Cache, replica: Cache, u: User, env: Env)
    ensures var e := CallSpec(cfg, rows, cache, replica, Call.Add(u), env);
            var free := u.id !in rows &&
                forall k | k in rows :: rows[k].username != u.username && rows[k].email != u.email;
            && (e.reply == Ok <==> env.fault.Served? && free)
            && (ReplyCode(e.reply) == Some(DuplicateKey) <==> env.fault.Served? && !free)
            && (ReplyCode(e.reply) == Some(DataAccess) <==> !env.fault.Served?)
            && e.rows == (if free && !env.fault.Refused?
                          then rows[u.id := u.(createdAt := env.now, updatedAt := env.now)] else rows)
            && e.cache == (if e.reply == Ok && cfg.hasCache && env.storeOk
                           then cache[u.id := Entry(u, env.now + 1800)] else cache)
  {
    var a := AddUserSpec(rows, u, env.now, env.fault);
    if a.err.Some? {
      WrappedCode("usecase.Add", a.err.value);
    }
  }

  /** The row that an update means to write: password and created_at stay. */
  function Rewritten(row: User, u: User, now: nat): User {
    row.(username := u.username, email := u.email, fullName := u.fullName, avatar := u.avatar, role := u.role,
         isActive := u.isActive, emailVerified := u.emailVerified, updatedAt := now)
  }

  /** Update succeeds exactly when the statement is served, the row exists, no other row has the username or the
      email, and, where the driver counts changed rows, something changes. DuplicateKey is a clash with another row;
      NotFound is a missing row, or one already as requested within the clock's resolution on a driver that counts
      changed rows. */
  lemma UpdateExactly(cfg: Config, rows: Table, cache: Cache, replica: Cache, u: User, env: Env)
    ensures var e := CallSpec(cfg, rows, cache, replica, Call.Update(u), env);
            var known := u.id in rows;
            var clash := exists k | k in rows && k != u.id ::
                rows[k].username == u.username || rows[k].email == u.email;
            var same := known && cfg.changedOnly && rows[u.id] == Rewritten(rows[u.id], u, env.now);
            && (e.reply == Ok <==> env.fault.Served? && known && !clash && !same)
            && (ReplyCode(e.reply) == Some(NotFound) <==> env.fault.Served? && (!known || (!clash && same)))
            && (ReplyCode(e.reply) == Some(DuplicateKey) <==> env.fault.Served? && known && clash)
            && (ReplyCode(e.reply) == Some(DataAccess) <==> !env.fault.Served?)
            && e.rows == (if known && !clash && !env.fault.Refused?
                          then rows[u.id := Rewritten(rows[u.id], u, env.now)] else rows)
            && e.cache == (if e.reply == Ok && cfg.hasCache && env.storeOk
                           then cache[u.id := Entry(u, env.now + 1800)] else cache)
  {
    var a := UpdateUserSpec(rows, u, env.now, env.fault, cfg.changedOnly);
    if a.err.Some? {
      WrappedCode("usecase.Update", a.err.value);
    }
  }

  /** Delete succeeds exactly on a row that is there, answers NotFound exactly on one that is not, and forgets what the
      cache holds on success alone. */
  lemma DeleteExactly(cfg: Config, rows: Table, cache: Cache, replica: Cache, id: string, env: Env)
    ensures var e := CallSpec(cfg, rows, cache, replica, Call.Delete(id), env);
            && (e.reply == Ok <==> env.fault.Served? && id in rows)
            && (ReplyCode(e.reply) == Some(NotFound) <==> env.fault.Served? && id !in rows)
            && (ReplyCode(e.reply) == Some(DataAccess) <==> !env.fault.Served?)
            && e.rows == (if env.fault.Refused? then rows else rows - {id})
            && e.cache == (if e.reply == Ok && cfg.hasCache && env.storeOk then cache - {id} else cache)
  {
    var a := DeleteUserSpec(rows, id, env.fault);
    if a.err.Some? {
      WrappedCode("usecase.Delete", a.err.value);
    }
  }

  /** GetByID answers from the replica if there is one, otherwise from the master cache, where the key is reachable and
      alive, without asking the database; on a miss NotFound exactly when the read is served and the row missing,
      DataAccess exactly when it is not served, and otherwise the row, which the master cache then holds. */
  lemma GetByIDExactly(cfg: Config, rows: Table, cache: Cache, replica: Cache, id: string, env: Env)
    requires Keyed(rows)
    ensures var e := CallSpec(cfg, rows, cache, replica, Call.GetByID(id), env);
            var readable := if cfg.hasReplica then replica else if cfg.hasCache then cache else map[];
            var hit := env.lookupOk && id in readable && env.now < readable[id].expires;
            && e.rows == rows
            && (hit ==> e.reply == Found(readable[id].user) && e.cache == cache)
            && (!hit ==>
                && (ReplyCode(e.reply) == Some(NotFound) <==> env.fault.Served? && id !in rows)
                && (ReplyCode(e.reply) == Some(DataAccess) <==> !env.fault.Served?)
                && (env.fault.Served? && id in rows ==> e.reply == Found(rows[id]))
                && e.cache == (if env.fault.Served? && id in rows && cfg.hasCache && env.storeOk
                               then cache[id := Entry(rows[id], env.now + 1800)] else cache))
  {
    var r := GetUserByIDSpec(rows, id, env.fault);
    if r.Failed? {
      WrappedCode("usecase.GetByID", r.error);
    }
  }

  /** user_created: the row as the database has it now is cached for its full life; NotFound and DataAccess as for a
      read. */
  lemma ProcessUserCreatedExactly(cfg: Config, rows: Table, cache: Cache, replica: Cache, id: string, env: Env)
    requires Keyed(rows)
    ensures var e := CallSpec(cfg, rows, cache, replica, Call.ProcessUserCreated(id), env);
            && e.rows == rows
            && (e.reply == Ok <==> env.fault.Served? && id in rows)
            && (ReplyCode(e.reply) == Some(NotFound) <==> env.fault.Served? && id !in rows)
            && (ReplyCode(e.reply) == Some(DataAccess) <==> !env.fault.Served?)
            && e.cache == (if e.reply == Ok && cfg.hasCache && env.storeOk
                           then cache[id := Entry(rows[id], env.now + 1800)] else cache)
  {
    var r := GetUserByIDSpec(rows, id, env.fault);
    if r.Failed? {
      WrappedCode("usecase.ProcessUserCreated", r.error);
    }
  }

  /** user_deleted: never an error, whatever the database does; the entry goes when the cache takes the call. */
  lemma ProcessUserDeletedExactly(cfg: Config, rows: Table, cache: Cache, replica: Cache, id: string, env: Env)
    ensures var e := CallSpec(cfg, rows, cache, replica, Call.ProcessUserDeleted(id), env);
            && e.reply == Ok && e.rows == rows
            && e.cache == (if cfg.hasCache && env.storeOk then cache - {id} else cache)
  {
  }

  /** What the failures say: which use case, and which user. */
  lemma FailuresNameTheUser(cfg: Config, rows: Table, cache: Cache, replica: Cache, u: User, env: Env)
    requires env.fault.Served?
    ensures u.id !in rows && !env.lookupOk ==>
            CallSpec(cfg, rows, cache, replica, Call.GetByID(u.id), env).reply ==
                Fail(Wrapped("usecase.GetByID", NewNotFoundError("User", u.id)))
    ensures u.id !in rows ==>
            CallSpec(cfg, rows, cache, replica, Call.ProcessUserCreated(u.id), env).reply ==
                Fail(Wrapped("usecase.ProcessUserCreated", NewNotFoundError("User", u.id)))
    ensures u.id !in rows ==>
            CallSpec(cfg, rows, cache, replica, Call.Update(u), env).reply ==
                Fail(Wrapped("usecase.Update", NewNotFoundError("User", u.id)))
    ensures u.id !in rows ==>
            CallSpec(cfg, rows, cache, replica, Call.Delete(u.id), env).reply ==
                Fail(Wrapped("usecase.Delete", NewNotFoundError("User", u.id)))
    ensures u.id in rows ==>
            var cause := Some(Plain("duplicate"));
            CallSpec(cfg, rows, cache, replica, Call.Add(u), env).reply ==
                Fail(Wrapped("usecase.Add",
                    NewDuplicateKeyError(u.id, "User with ID '" + u.id + "' already exists", cause)))
  {
  }

  /** The same update again within the same second: table and cache stay as they are, but only a driver that
      counts matched rows says so; one that counts changed rows reports the user missing. */
  lemma RepeatedUpdate(cfg: Config, rows: Table, cache: Cache, replica: Cache, u: User, env: Env)
    requires env.fault.Served? && CallSpec(cfg, rows, cache, replica, Call.Update(u), env).reply == Ok
    ensures var first := CallSpec(cfg, rows, cache, replica, Call.Update(u), env);
            var again := CallSpec(cfg, first.rows, first.cache, replica, Call.Update(u), env);
            && again.rows == first.rows && again.cache == first.cache
            && (if cfg.changedOnly then ReplyCode(again.reply) == Some(NotFound) else again.reply == Ok)
  {
    UpdateExactly(cfg, rows, cache, replica, u, env);
    var first := CallSpec(cfg, rows, cache, replica, Call.Update(u), env);
    UpdateExactly(cfg, first.rows, first.cache, replica, u, env);
  }

  /** Deleting what was just added restores the table, and a working cache forgets the user. */
  lemma DeleteUndoesAdd(cfg: Config, rows: Table, cache: Cache, replica: Cache, u: User, env: Env, env': Env)
    requires CallSpec(cfg, rows, cache, replica, Call.Add(u), env).reply == Ok && env'.fault.Served?
    ensures var added := CallSpec(cfg, rows, cache, replica, Call.Add(u), env);
            var deleted := CallSpec(cfg, added.rows, added.cache, replica, Call.Delete(u.id), env');
            && deleted.reply == Ok && deleted.rows == rows
            && (cfg.hasCache && env'.storeOk ==> deleted.cache == cache - {u.id})
  {
    AddExactly(cfg, rows, cache, replica, u, env);
    var added := CallSpec(cfg, rows, cache, replica, Call.Add(u), env);
    DeleteExactly(cfg, added.rows, added.cache, replica, u.id, env');
    assert added.rows - {u.id} == rows;
    assert added.cache - {u.id} == cache - {u.id};
  }

  /** What was just written is read back from the master cache without the database, for half an hour and no longer. */
  lemma WrittenIsReadForHalfAnHour(cfg: Config, rows: Table, cache: Cache, u: User, env: Env, env': Env, adding: bool)
    requires Keyed(rows) && cfg.hasCache && !cfg.hasReplica && env.storeOk && env'.lookupOk && !env'.fault.Served?
    requires var call := if adding then Call.Add(u) else Call.Update(u);
             CallSpec(cfg, rows, cache, map[], call, env).reply == Ok
    ensures var call := if adding then Call.Add(u) else Call.Update(u);
            var written := CallSpec(cfg, rows, cache, map[], call, env);
            var read := CallSpec(cfg, written.rows, written.cache, map[], Call.GetByID(u.id), env');
            if env'.now < env.now + 1800 then read.reply == Found(u) else ReplyCode(read.reply) == Some(DataAccess)
  {
    AddExactly(cfg, rows, cache, map[], u, env);
    UpdateExactly(cfg, rows, cache, map[], u, env);
    var call := if adding then Call.Add(u) else Call.Update(u);
    var written := CallSpec(cfg, rows, cache, map[], call, env);
    GetByIDExactly(cfg, written.rows, written.cache, map[], u.id, env');
  }

  /** A key that the cache evicts under memory pressure costs one read and nothing else. */
  lemma EvictedIsReadAgain(s: State, id: string, env: Env)
    requires Keyed(s.rows) && !s.cfg.hasReplica && env.fault.Served?
    ensures var t := Next(s, Drop(id));
            var read := CallSpec(t.cfg, t.rows, t.cache, t.replica, Call.GetByID(id), env);
            && t == s.(cache := t.cache, stream := t.stream)
            && (if id in s.rows then read.reply == Found(s.rows[id]) else ReplyCode(read.reply) == Some(NotFound))
  {
    var t := Next(s, Drop(id));
    GetByIDExactly(t.cfg, t.rows, t.cache, t.replica, id, env);
  }
}
