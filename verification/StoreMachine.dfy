/** The user store as a step machine. Every use case is a little program over shared state: one database step, then one
    best-effort cache step; any number of them interleave. All that the environment decides (faults, lost cache calls,
    the passing of time, the progress of a cache replica) is part of the event, so a run is a sequence of events. */
module StoreMachine {
  import opened Options
  import opened Errors
  import opened Domain
  import opened Database

  /** Seconds, as the migrations' TIMESTAMP columns. */
  const USER_CACHE_TTL: nat := 1800

  datatype Entry = Entry(user: User, expires: nat)
  type Cache = map<string, Entry>

  /** What the master cache sends to a replica, with the time it was sent. */
  datatype CacheWrite = SetKey(user: User, at: nat) | DelKey(id: string, at: nat)

  datatype Call =
    | GetByID(id: string) | Add(user: User) | Update(user: User) | Delete(id: string)
    | ProcessUserCreated(id: string) | ProcessUserDeleted(id: string)

  datatype Reply = Found(user: User) | Ok | Fail(error: Error)

  /** An operation's program counter with its pending value. */
  datatype Op =
    | Ready(call: Call)
    | Missed(call: Call)                                         // GetByID after a cache miss
    | Storing(call: Call, user: User, since: nat, reply: Reply)  // database step taken at `since`, cache write pending
    | Evicting(call: Call, since: nat, reply: Reply)             // the same with an eviction pending
    | Done(call: Call, reply: Reply, at: nat)

  /** Which dependencies Repository was wired with, and how the driver counts affected rows. */
  datatype Config = Config(hasCache: bool, hasReplica: bool, changedOnly: bool)

  datatype State = State(
    cfg: Config, clock: nat, rows: Table, cache: Cache,
    replica: Cache, stream: seq<CacheWrite>, ops: map<nat, Op>)

  datatype Event =
    | Start(op: nat, call: Call)
    | Advance(op: nat, fault: Fault, cacheOk: bool)  // one shared step of `op`
    | Tick(seconds: nat)
    | Replicate                                      // the replica applies the oldest write it was sent
    | Drop(id: string)                               // the cache evicts a key under memory pressure

  function IdOf(call: Call): string {
    match call
    case Add(u) => u.id
    case Update(u) => u.id
    case GetByID(id) => id
    case Delete(id) => id
    case ProcessUserCreated(id) => id
    case ProcessUserDeleted(id) => id
  }

  predicate IsDelivery(call: Call) {
    call.ProcessUserCreated? || call.ProcessUserDeleted?
  }

  /** GetUser: an absent, expired or unreachable key all read as a miss. */
  function Lookup(cache: Cache, id: string, clock: nat, ok: bool): Option<User> {
    if ok && id in cache && clock < cache[id].expires then Some(cache[id].user) else None
  }

  /** ReadCache: the replica when there is one, otherwise the master. */
  function ReadCache(s: State): Cache {
    if s.cfg.hasReplica then s.replica else if s.cfg.hasCache then s.cache else map[]
  }

  function SetUser(s: State, user: User, ok: bool): State {
    if s.cfg.hasCache && ok then
      s.(cache := s.cache[user.id := Entry(user, s.clock + USER_CACHE_TTL)],
         stream := if s.cfg.hasReplica then s.stream + [SetKey(user, s.clock)] else s.stream)
    else s
  }

  function DeleteKey(s: State, id: string, ok: bool): State {
    if s.cfg.hasCache && ok then
      s.(cache := s.cache - {id},
         stream := if s.cfg.hasReplica then s.stream + [DelKey(id, s.clock)] else s.stream)
    else s
  }

  function Put(s: State, op: nat, next: Op): State {
    s.(ops := s.ops[op := next])
  }

  /** What one step of an operation makes of the table and of its own program counter. */
  datatype Move = Move(rows: Table, next: Op)

  /** The database step that reads, shared by GetByID and ProcessUserCreated. */
  function ReadStep(s: State, call: Call, fault: Fault): Op {
    match GetUserByIDSpec(s.rows, IdOf(call), fault)
    case Row(u) => Storing(call, u, s.clock, if call.GetByID? then Found(u) else Ok)
    case Failed(e) =>
      Done(call, Fail(Wrapped(if call.GetByID? then "usecase.GetByID" else "usecase.ProcessUserCreated", e)), s.clock)
  }

  function WriteStep(s: State, call: Call, answer: Answer, context: string, next: Op): Move {
    match answer.err
    case None => Move(answer.rows, next)
    case Some(e) => Move(answer.rows, Done(call, Fail(Wrapped(context, e)), s.clock))
  }

  function FirstStep(s: State, call: Call, fault: Fault, cacheOk: bool): Move {
    match call
    case GetByID(id) =>
      (match Lookup(ReadCache(s), id, s.clock, cacheOk)
       case Some(u) => Move(s.rows, Done(call, Found(u), s.clock))
       case None => Move(s.rows, Missed(call)))
    case Add(u) =>
      WriteStep(s, call, AddUserSpec(s.rows, u, s.clock, fault), "usecase.Add", Storing(call, u, s.clock, Ok))
    case Update(u) =>
      WriteStep(s, call, UpdateUserSpec(s.rows, u, s.clock, fault, s.cfg.changedOnly), "usecase.Update",
          Storing(call, u, s.clock, Ok))
    case Delete(id) =>
      WriteStep(s, call, DeleteUserSpec(s.rows, id, fault), "usecase.Delete", Evicting(call, s.clock, Ok))
    case ProcessUserCreated(_) => Move(s.rows, ReadStep(s, call, fault))
    case ProcessUserDeleted(_) => Move(s.rows, Evicting(call, s.clock, Ok))
  }

  function AdvanceOp(s: State, op: nat, fault: Fault, cacheOk: bool): State
    requires op in s.ops
  {
    match s.ops[op]
    case Ready(call) => var m := FirstStep(s, call, fault, cacheOk); Put(s.(rows := m.rows), op, m.next)
    case Missed(call) => Put(s, op, ReadStep(s, call, fault))
    case Storing(call, u, _, reply) => Put(SetUser(s, u, cacheOk), op, Done(call, reply, s.clock))
    case Evicting(call, _, reply) => Put(DeleteKey(s, IdOf(call), cacheOk), op, Done(call, reply, s.clock))
    case Done(_, _, _) => s
  }

  /** A replica may restart a key's life when it applies the write, so its copy can outlive the master's. */
  function Applied(replica: Cache, w: CacheWrite, clock: nat): Cache {
    match w
    case SetKey(u, _) => replica[u.id := Entry(u, clock + USER_CACHE_TTL)]
    case DelKey(id, _) => replica - {id}
  }

  function ReplicateStep(s: State): State {
    if s.stream == [] then s
    else s.(stream := s.stream[1..], replica := Applied(s.replica, s.stream[0], s.clock))
  }

  function Next(s: State, e: Event): State {
    match e
    case Start(op, call) => if op in s.ops then s else Put(s, op, Ready(call))
    case Advance(op, fault, ok) => if op in s.ops then AdvanceOp(s, op, fault, ok) else s
    case Tick(d) => s.(clock := s.clock + d)
    case Replicate => ReplicateStep(s)
    case Drop(id) => DeleteKey(s, id, true)
  }

  function Exec(s: State, es: seq<Event>): State {
    if es == [] then s else Next(Exec(s, es[..|es| - 1]), es[|es| - 1])
  }

  ghost predicate Initial(s: State) {
    ValidTable(s.rows) && s.cache == map[] && s.replica == map[] && s.stream == [] && s.ops == map[]
  }

  lemma ExecAppend(s: State, es: seq<Event>, e: Event)
    ensures Exec(s, es + [e]) == Next(Exec(s, es), e)
  {
    assert (es + [e])[..|es|] == es;
  }

  lemma {:induction false} ExecConcat(s: State, es: seq<Event>, fs: seq<Event>)
    ensures Exec(s, es + fs) == Exec(Exec(s, es), fs)
    decreases |fs|
  {
    if fs == [] {
      assert es + fs == es;
    } else {
      ExecConcat(s, es, fs[..|fs| - 1]);
      assert es + fs == (es + fs[..|fs| - 1]) + [fs[|fs| - 1]];
      ExecAppend(s, es + fs[..|fs| - 1], fs[|fs| - 1]);
    }
  }

  lemma FirstStepKeepsTableValid(s: State, call: Call, fault: Fault, ok: bool)
    requires ValidTable(s.rows)
    ensures ValidTable(FirstStep(s, call, fault, ok).rows)
  {
    match call
    case Add(u) => AddKeepsTableValid(s.rows, u, s.clock, fault);
    case Update(u) => UpdateKeepsTableValid(s.rows, u, s.clock, fault, s.cfg.changedOnly);
    case _ =>
  }

  /** Every step keeps the table valid, whatever happens. */
  lemma StepKeepsTableValid(s: State, e: Event)
    requires ValidTable(s.rows)
    ensures ValidTable(Next(s, e).rows)
  {
    if e.Advance? && e.op in s.ops && s.ops[e.op].Ready? {
      FirstStepKeepsTableValid(s, s.ops[e.op].call, e.fault, e.cacheOk);
    }
  }

  lemma {:induction false} RunKeepsTableValid(s: State, es: seq<Event>)
    requires ValidTable(s.rows)
    ensures ValidTable(Exec(s, es).rows)
    ensures var rows := Exec(s, es).rows;
            forall a, b | a in rows && b in rows && a != b ::
              rows[a].id != rows[b].id && rows[a].username != rows[b].username && rows[a].email != rows[b].email
  {
    if es != [] {
      RunKeepsTableValid(s, es[..|es| - 1]);
      StepKeepsTableValid(Exec(s, es[..|es| - 1]), es[|es| - 1]);
    }
  }
}
