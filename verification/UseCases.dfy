/** internal/usecase: the use cases as methods over a database, an optional cache, an optional replica and an optional
    publisher. Each is proved equal to its program in the step machine run without interruption. */
module UseCases {
  import opened Options
  import opened Errors
  import opened Domain
  import opened Database
  import opened StoreMachine

  /** What one call meets: the clock, the database, the cache lookup, the cache write, the publisher, the validator and
      the id generator. */
  datatype Env = Env(now: nat, fault: Fault, lookupOk: bool, storeOk: bool, publishOk: bool, valid: bool,
      freshId: string)

  /** What one call does to table and master cache, and what it answers. */
  datatype Effect = Effect(rows: Table, cache: Cache, reply: Reply)

  datatype Message =
    | UserCreated(id: string, username: string, email: string, fullName: string, role: Option<string>, isActive: bool,
        createdAt: nat)
    | UserDeleted(id: string, deletedAt: nat)

  function Cached(cfg: Config, cache: Cache, user: User, env: Env): Cache {
    if cfg.hasCache && env.storeOk then cache[user.id := Entry(user, env.now + USER_CACHE_TTL)] else cache
  }

  function Evicted(cfg: Config, cache: Cache, id: string, env: Env): Cache {
    if cfg.hasCache && env.storeOk then cache - {id} else cache
  }

  /** The cache-aside read and the two write-then-refresh patterns, as one call sees them. */
  function CallSpec(cfg: Config, rows: Table, cache: Cache, replica: Cache, call: Call, env: Env): Effect {
    match call
    case GetByID(id) =>
      var readable := if cfg.hasReplica then replica else if cfg.hasCache then cache else map[];
      (match Lookup(readable, id, env.now, env.lookupOk)
       case Some(u) => Effect(rows, cache, Found(u))
       case None =>
         match GetUserByIDSpec(rows, id, env.fault)
         case Row(u) => Effect(rows, Cached(cfg, cache, u, env), Found(u))
         case Failed(e) => Effect(rows, cache, Fail(Wrapped("usecase.GetByID", e))))
    case Add(u) =>
      var a := AddUserSpec(rows, u, env.now, env.fault);
      (match a.err
       case None => Effect(a.rows, Cached(cfg, cache, u, env), Ok)
       case Some(e) => Effect(a.rows, cache, Fail(Wrapped("usecase.Add", e))))
    case Update(u) =>
      var a := UpdateUserSpec(rows, u, env.now, env.fault, cfg.changedOnly);
      (match a.err
       case None => Effect(a.rows, Cached(cfg, cache, u, env), Ok)
       case Some(e) => Effect(a.rows, cache, Fail(Wrapped("usecase.Update", e))))
    case Delete(id) =>
      var a := DeleteUserSpec(rows, id, env.fault);
      (match a.err
       case None => Effect(a.rows, Evicted(cfg, cache, id, env), Ok)
       case Some(e) => Effect(a.rows, cache, Fail(Wrapped("usecase.Delete", e))))
    case ProcessUserCreated(id) =>
      (match GetUserByIDSpec(rows, id, env.fault)
       case Row(u) => Effect(rows, Cached(cfg, cache, u, env), Ok)
       case Failed(e) => Effect(rows, cache, Fail(Wrapped("usecase.ProcessUserCreated", e))))
    case ProcessUserDeleted(id) => Effect(rows, Evicted(cfg, cache, id, env), Ok)
  }

  /** The call's program with nobody in between. */
  function Uninterrupted(op: nat, call: Call, env: Env): seq<Event> {
    [Start(op, call), Advance(op, env.fault, env.lookupOk || !call.GetByID?),
     Advance(op, env.fault, env.storeOk), Advance(op, env.fault, env.storeOk)]
  }

  /** What a pending cache step will make of the master cache. */
  function AfterCacheStep(s: State, next: Op, env: Env): Cache {
    match next
    case Storing(_, u, _, _) => Cached(s.cfg, s.cache, u, env)
    case Evicting(call, _, _) => Evicted(s.cfg, s.cache, IdOf(call), env)
    case _ => s.cache
  }

  lemma CacheStepThenRest(s: State, op: nat, env: Env)
    requires op in s.ops && !s.ops[op].Ready? && !s.ops[op].Missed? && s.clock == env.now
    ensures var t := Next(s, Advance(op, env.fault, env.storeOk));
            && op in t.ops && t.ops[op].Done? && t.clock == s.clock && t.rows == s.rows
            && t.ops[op].reply == s.ops[op].reply && t.cache == AfterCacheStep(s, s.ops[op], env)
            && Next(t, Advance(op, env.fault, env.storeOk)) == t
  {
  }

  lemma ReadThenCacheStep(s: State, op: nat, env: Env)
    requires op in s.ops && s.ops[op].Missed? && s.clock == env.now
    ensures var a := Advance(op, env.fault, env.storeOk); var t := Next(Next(s, a), a);
            var next := ReadStep(s, s.ops[op].call, env.fault);
            && op in t.ops && t.ops[op].Done? && t.clock == s.clock && t.rows == s.rows
            && t.ops[op].reply == next.reply && t.cache == AfterCacheStep(s, next, env)
  {
    CacheStepThenRest(Next(s, Advance(op, env.fault, env.storeOk)), op, env);
  }

  /** CallSpec, put together from the call's own steps. */
  lemma CallSpecByStep(s: State, call: Call, env: Env)
    requires s.clock == env.now && Keyed(s.rows)
    ensures var m := FirstStep(s, call, env.fault, env.lookupOk || !call.GetByID?);
            var next := if m.next.Missed? then ReadStep(s, call, env.fault) else m.next;
            && !m.next.Ready? && !next.Ready? && !next.Missed?
            && CallSpec(s.cfg, s.rows, s.cache, s.replica, call, env) ==
                Effect(m.rows, AfterCacheStep(s, next, env), next.reply)
            && (m.next.Missed? ==> m.rows == s.rows && m.next.call == call)
  {
  }

  /** CallSpec is the step machine's run of the call on its own. */
  lemma UninterruptedCall(s: State, op: nat, call: Call, env: Env)
    requires op !in s.ops && s.clock == env.now && Keyed(s.rows)
    ensures var t := Exec(s, Uninterrupted(op, call, env));
            && op in t.ops && t.ops[op].Done? && t.clock == s.clock
            && Effect(t.rows, t.cache, t.ops[op].reply) == CallSpec(s.cfg, s.rows, s.cache, s.replica, call, env)
  {
    var es := Uninterrupted(op, call, env);
    var s1 := Put(s, op, Ready(call));
    var m := FirstStep(s, call, env.fault, env.lookupOk || !call.GetByID?);
    var s2 := Put(s1.(rows := m.rows), op, m.next);
    ExecFour(s, es);
    CallSpecByStep(s, call, env);
    FirstStepIgnoresOps(s, s1, call, env.fault, env.lookupOk || !call.GetByID?);
    assert Next(s1, es[1]) == s2;
    if m.next.Missed? {
      ReadThenCacheStep(s2, op, env);
    } else {
      CacheStepThenRest(s2, op, env);
    }
  }

  lemma FirstStepIgnoresOps(s: State, t: State, call: Call, fault: Fault, ok: bool)
    requires t == s.(ops := t.ops)
    ensures FirstStep(t, call, fault, ok) == FirstStep(s, call, fault, ok)
  {
  }

  lemma ExecFour(s: State, es: seq<Event>)
    requires |es| == 4
    ensures Exec(s, es) == Next(Next(Next(Next(s, es[0]), es[1]), es[2]), es[3])
  {
    assert es == [es[0], es[1], es[2]] + [es[3]];
    assert [es[0], es[1], es[2]] == [es[0], es[1]] + [es[2]];
    assert [es[0], es[1]] == [es[0]] + [es[1]];
    assert [es[0]] == [] + [es[0]];
    ExecAppend(s, [], es[0]);
    ExecAppend(s, [es[0]], es[1]);
    ExecAppend(s, [es[0], es[1]], es[2]);
    ExecAppend(s, [es[0], es[1], es[2]], es[3]);
  }

  /** internal/repository/cache. */
  class CacheReadWriter {
    var entries: Cache

    constructor ()
      ensures entries == map[]
    {
      entries := map[];
    }

    /** A miss, an expired key, an unreachable server and a corrupt value all come back as an error. */
    method GetUser(id: string, env: Env) returns (r: Fetched)
      ensures match Lookup(entries, id, env.now, env.lookupOk)
              case Some(u) => r == Row(u)
              case None => r.Failed?
    {
      if !env.lookupOk || id !in entries || entries[id].expires <= env.now {
        return Failed(NewNotFoundError("User cache", id));
      }
      return Row(entries[id].user);
    }

    method SetUser(user: User, env: Env) returns (err: Option<Error>)
      modifies this
      ensures err.None? <==> env.storeOk
      ensures entries == if env.storeOk then old(entries)[user.id := Entry(user, env.now + USER_CACHE_TTL)]
          else old(entries)
    {
      if !env.storeOk {
        return Some(NewDataAccessError("failed to set user in cache", None));
      }
      entries := entries[user.id := Entry(user, env.now + USER_CACHE_TTL)];
      return None;
    }

    method DeleteUser(id: string, env: Env) returns (err: Option<Error>)
      modifies this
      ensures err.None? <==> env.storeOk
      ensures entries == if env.storeOk then old(entries) - {id} else old(entries)
    {
      if !env.storeOk {
        return Some(NewDataAccessError("failed to delete user from cache", None));
      }
      entries := entries - {id};
      return None;
    }
  }

  /** The events handed to the broker. */
  class MessagePublisher {
    var sent: seq<Message>

    constructor ()
      ensures sent == []
    {
      sent := [];
    }

    method Publish(m: Message, env: Env) returns (err: Option<Error>)
      modifies this
      ensures err.None? <==> env.publishOk
      ensures sent == if env.publishOk then old(sent) + [m] else old(sent)
    {
      if !env.publishOk {
        return Some(NewDataAccessError("failed to publish event", None));
      }
      sent := sent + [m];
      return None;
    }
  }

  /** A *domain.User argument. */
  class UserRef {
    var user: User

    constructor (user: User)
      ensures this.user == user
    {
      this.user := user;
    }
  }

  class UserUseCase {
    const db: DbReadWriter
    const cache: CacheReadWriter?
    const replica: CacheReadWriter?
    const publisher: MessagePublisher?

    constructor (db: DbReadWriter, cache: CacheReadWriter?, replica: CacheReadWriter?, publisher: MessagePublisher?)
      ensures this.db == db && this.cache == cache && this.replica == replica && this.publisher == publisher
    {
      this.db, this.cache, this.replica, this.publisher := db, cache, replica, publisher;
    }

    function Wiring(): Config {
      Config(cache != null, replica != null, db.changedOnly)
    }

    function Master(): Cache
      reads cache
    {
      if cache == null then map[] else cache.entries
    }

    /** The call's effect on the state before it. */
    function Spec(call: Call, env: Env): Effect
      reads db, cache, replica
    {
      CallSpec(Wiring(), db.rows, Master(), if replica == null then map[] else replica.entries, call, env)
    }

    function Sent(): seq<Message>
      reads publisher
    {
      if publisher == null then [] else publisher.sent
    }

    method SetCacheWithBestEffort(user: User, env: Env)
      modifies cache
      ensures Master() == Cached(Wiring(), old(Master()), user, env)
    {
      if cache == null {
        return;
      }
      var _ := cache.SetUser(user, env);
    }

    method DeleteCacheWithBestEffort(id: string, env: Env)
      modifies cache
      ensures Master() == Evicted(Wiring(), old(Master()), id, env)
    {
      if cache == null {
        return;
      }
      var _ := cache.DeleteUser(id, env);
    }

    method GetByID(id: string, env: Env) returns (r: Reply)
      modifies cache
      ensures Effect(db.rows, Master(), r) == old(Spec(Call.GetByID(id), env))
    {
      var readable := if replica != null then replica else cache;
      if readable != null {
        var hit := readable.GetUser(id, env);
        if hit.Row? {
          return Found(hit.user);
        }
      }
      var row := db.GetUserByID(id, env.fault);
      if row.Failed? {
        return Fail(Wrapped("usecase.GetByID", row.error));
      }
      SetCacheWithBestEffort(row.user, env);
      return Found(row.user);
    }

    /** Add fills in a missing id, refuses an invalid user before touching anything, and publishes user_created only
        after a successful insert; a failing cache or publisher does not fail the call. */
    method Add(user: UserRef, env: Env) returns (r: Reply)
      modifies user, db, cache, publisher
      ensures user.user == old(user.user).(id := if old(user.user).id == "" then env.freshId else old(user.user).id)
      ensures !env.valid ==> r.Fail? && CodeOf(Some(r.error)) == Some(Validation)
      ensures !env.valid ==> db.rows == old(db.rows) && Master() == old(Master()) && Sent() == old(Sent())
      ensures env.valid ==> Effect(db.rows, Master(), r) == old(CallSpec(Wiring(), db.rows, Master(), map[],
                              Call.Add(user.user.(id := if user.user.id == "" then env.freshId else user.user.id)),
                                  env))
      ensures var u := user.user;
              Sent() == old(Sent()) +
                if r == Ok && publisher != null && env.publishOk
                then [UserCreated(u.id, u.username, u.email, u.fullName, u.role, u.isActive, u.createdAt)] else []
    {
      if user.user.id == "" {
        user.user := user.user.(id := env.freshId);
      }
      if !env.valid {
        return Fail(Wrapped("usecase.Add.Validate", NewValidationError("invalid user")));
      }
      var u := user.user;
      var err := db.AddUser(u, env.now, env.fault);
      if err.Some? {
        return Fail(Wrapped("usecase.Add", err.value));
      }
      SetCacheWithBestEffort(u, env);
      if publisher != null {
        var _ := publisher.Publish(UserCreated(u.id, u.username, u.email, u.fullName, u.role, u.isActive, u.createdAt),
            env);
      }
      return Ok;
    }

    method Update(user: User, env: Env) returns (r: Reply)
      modifies db, cache
      ensures !env.valid ==> r.Fail? && CodeOf(Some(r.error)) == Some(Validation)
      ensures !env.valid ==> db.rows == old(db.rows) && Master() == old(Master())
      ensures env.valid ==> Effect(db.rows, Master(), r) == old(Spec(Call.Update(user), env))
    {
      if !env.valid {
        return Fail(Wrapped("usecase.Update.Validate", NewValidationError("invalid user")));
      }
      var err := db.UpdateUser(user, env.now, env.fault);
      if err.Some? {
        return Fail(Wrapped("usecase.Update", err.value));
      }
      SetCacheWithBestEffort(user, env);
      return Ok;
    }

    method Delete(id: string, env: Env) returns (r: Reply)
      modifies db, cache, publisher
      ensures Effect(db.rows, Master(), r) == old(Spec(Call.Delete(id), env))
      ensures Sent() == old(Sent()) + if r == Ok && publisher != null && env.publishOk then [UserDeleted(id, env.now)]
          else []
    {
      var err := db.DeleteUser(id, env.fault);
      if err.Some? {
        return Fail(Wrapped("usecase.Delete", err.value));
      }
      DeleteCacheWithBestEffort(id, env);
      if publisher != null {
        var _ := publisher.Publish(UserDeleted(id, env.now), env);
      }
      return Ok;
    }

    method ProcessUserCreated(id: string, env: Env) returns (r: Reply)
      modifies cache
      ensures Effect(db.rows, Master(), r) == old(Spec(Call.ProcessUserCreated(id), env))
    {
      var row := db.GetUserByID(id, env.fault);
      if row.Failed? {
        return Fail(Wrapped("usecase.ProcessUserCreated", row.error));
      }
      SetCacheWithBestEffort(row.user, env);
      return Ok;
    }

    method ProcessUserDeleted(id: string, env: Env) returns (r: Reply)
      modifies cache
      ensures Effect(db.rows, Master(), r) == old(Spec(Call.ProcessUserDeleted(id), env))
    {
      DeleteCacheWithBestEffort(id, env);
      return Ok;
    }
  }
}
