/** The store against the plain table. When no replica is read, cache calls work, no database answer is lost and
    operations on one id do not overlap, the cache cannot be told apart from its absence, and extra deliveries of
    user_created and user_deleted cannot be told apart from their absence. */
module Coherence {
  import opened Options
  import opened Errors
  import opened Domain
  import opened Database
  import opened StoreMachine

  predicate InFlight(s: State, op: nat) {
    op in s.ops && !s.ops[op].Done?
  }

  predicate Busy(op: Op) {
    op.Storing? || op.Evicting?
  }

  /** Nothing starts on an id that an operation in flight is about. */
  ghost predicate NoOverlap(s: State, e: Event) {
    e.Start? ==> e.op !in s.ops && forall o | InFlight(s, o) :: IdOf(s.ops[o].call) != IdOf(e.call)
  }

  predicate CacheWorks(e: Event) {
    e.Advance? ==> e.cacheOk
  }

  predicate AnswerArrives(e: Event) {
    e.Advance? ==> !e.fault.Lost?
  }

  /** The setting, one event at a time. */
  ghost predicate Calm(s: State, e: Event) {
    NoOverlap(s, e) && CacheWorks(e) && AnswerArrives(e)
  }

  ghost predicate CalmRun(s0: State, es: seq<Event>) {
    forall n | 0 <= n < |es| :: Calm(Exec(s0, es[..n]), es[n])
  }

  ghost predicate RecordMatches(rows: Table, id: string, user: User) {
    id in rows && Pub(rows[id]) == Pub(user)
  }

  ghost predicate BusyOn(s: State, id: string) {
    exists op :: op in s.ops && Busy(s.ops[op]) && IdOf(s.ops[op].call) == id
  }

  /** A cached record is the row, unless an operation on that very id is about to rewrite or evict it. */
  ghost predicate EntryCoherent(s: State, id: string) {
    id in s.cache ==> RecordMatches(s.rows, id, s.cache[id].user) || BusyOn(s, id)
  }

  ghost predicate OpCoherent(rows: Table, op: Op) {
    match op
    case Missed(call) => call.GetByID?
    case Storing(call, u, _, reply) =>
      u.id == IdOf(call) && RecordMatches(rows, u.id, u) && (reply.Found? ==> reply.user == u && call.GetByID?)
    case Evicting(call, _, reply) => reply == Ok && (call.Delete? ==> call.id !in rows) &&
        (call.Delete? || call.ProcessUserDeleted?)
    case _ => true
  }

  ghost predicate Exclusive(s: State) {
    forall a, b | InFlight(s, a) && InFlight(s, b) && a != b :: IdOf(s.ops[a].call) != IdOf(s.ops[b].call)
  }

  ghost predicate Coherent(s: State) {
    && ValidTable(s.rows)
    && (!s.cfg.hasCache ==> s.cache == map[])
    && Exclusive(s)
    && (forall id :: EntryCoherent(s, id))
    && (forall op | op in s.ops :: OpCoherent(s.rows, s.ops[op]))
  }

  /** Where reads go to the master cache. */
  ghost predicate ReadCoherent(s: State) {
    Coherent(s) && !s.cfg.hasReplica
  }

  /** The table changes at most under one id. */
  ghost predicate SameElsewhere(rows: Table, rows': Table, id: string) {
    forall k | k != id :: (k in rows <==> k in rows') && (k in rows ==> rows'[k] == rows[k])
  }

  /** A database step of `op`: only its own row may change, and then its cache step is still to come. */
  lemma MoveKeepsCoherent(s: State, op: nat, rows': Table, next: Op)
    requires Coherent(s) && InFlight(s, op) && !Busy(s.ops[op]) && next.call == s.ops[op].call
    requires ValidTable(rows') && OpCoherent(rows', next) && SameElsewhere(s.rows, rows', IdOf(next.call))
    requires rows' == s.rows || Busy(next)
    ensures Coherent(Put(s.(rows := rows'), op, next))
  {
    var t, own := Put(s.(rows := rows'), op, next), IdOf(next.call);
    forall id ensures EntryCoherent(t, id) {
      assert EntryCoherent(s, id);
      if id in s.cache && BusyOn(s, id) {
        var o :| o in s.ops && Busy(s.ops[o]) && IdOf(s.ops[o].call) == id;
        assert InFlight(s, o);
        assert o != op && o in t.ops && t.ops[o] == s.ops[o];
        assert BusyOn(t, id);
      } else if id == own && Busy(next) {
        assert op in t.ops && Busy(t.ops[op]);
        assert BusyOn(t, id);
      }
    }
    forall o | o in t.ops ensures OpCoherent(t.rows, t.ops[o]) {
      if o != op {
        assert OpCoherent(s.rows, s.ops[o]);
        if !s.ops[o].Done? {
          assert InFlight(s, o);
        }
      }
    }
    forall a, b | InFlight(t, a) && InFlight(t, b) && a != b ensures IdOf(t.ops[a].call) != IdOf(t.ops[b].call) {
      assert InFlight(s, a) && InFlight(s, b);
    }
  }

  /** A cache step of `op`, with whatever it sends to a replica: the entry of its id is right again. */
  lemma CacheStepKeepsCoherent(s: State, op: nat, t: State, next: Op)
    requires Coherent(s) && InFlight(s, op) && Busy(s.ops[op]) && next.Done? && next.call == s.ops[op].call
    requires t.rows == s.rows && t.cfg == s.cfg && t.ops == s.ops
    requires var id := IdOf(next.call);
             && (id in t.cache ==> RecordMatches(s.rows, id, t.cache[id].user))
             && (forall k | k != id && k in t.cache :: k in s.cache && t.cache[k] == s.cache[k])
             && (!s.cfg.hasCache ==> t.cache == map[])
    ensures Coherent(Put(t, op, next))
  {
    var u := Put(t, op, next);
    forall id ensures EntryCoherent(u, id) {
      assert EntryCoherent(s, id);
      if id in u.cache && id != IdOf(next.call) && BusyOn(s, id) {
        var o :| o in s.ops && Busy(s.ops[o]) && IdOf(s.ops[o].call) == id;
        assert o in u.ops && u.ops[o] == s.ops[o];
        assert BusyOn(u, id);
      }
    }
    forall o | o in u.ops ensures OpCoherent(u.rows, u.ops[o]) {
      if o != op {
        assert OpCoherent(s.rows, s.ops[o]);
      }
    }
    forall a, b | InFlight(u, a) && InFlight(u, b) && a != b ensures IdOf(u.ops[a].call) != IdOf(u.ops[b].call) {
      assert InFlight(s, a) && InFlight(s, b);
    }
  }

  lemma ReadIsCoherent(s: State, call: Call, fault: Fault)
    requires Keyed(s.rows)
    ensures OpCoherent(s.rows, ReadStep(s, call, fault)) && ReadStep(s, call, fault).call == call
  {
  }

  ghost predicate CoherentMove(s: State, call: Call, m: Move) {
    && m.next.call == call && ValidTable(m.rows) && OpCoherent(m.rows, m.next)
    && SameElsewhere(s.rows, m.rows, IdOf(call)) && (m.rows == s.rows || Busy(m.next))
  }

  /** A write statement that either fails and changes nothing, or writes the request's row. */
  lemma WriteIsCoherent(s: State, call: Call, answer: Answer, context: string, next: Op)
    requires next.call == call && ValidTable(answer.rows) && SameElsewhere(s.rows, answer.rows, IdOf(call))
    requires answer.err.Some? ==> answer.rows == s.rows
    requires answer.err.None? ==> Busy(next) && OpCoherent(answer.rows, next)
    ensures CoherentMove(s, call, WriteStep(s, call, answer, context, next))
  {
  }

  lemma AddIsCoherent(s: State, u: User, fault: Fault, ok: bool)
    requires ValidTable(s.rows) && !fault.Lost?
    ensures CoherentMove(s, Add(u), FirstStep(s, Add(u), fault, ok))
  {
    var answer := AddUserSpec(s.rows, u, s.clock, fault);
    AddKeepsTableValid(s.rows, u, s.clock, fault);
    WriteIsCoherent(s, Add(u), answer, "usecase.Add", Storing(Add(u), u, s.clock, Ok));
  }

  lemma UpdateIsCoherent(s: State, u: User, fault: Fault, ok: bool)
    requires ValidTable(s.rows) && !fault.Lost?
    ensures CoherentMove(s, Update(u), FirstStep(s, Update(u), fault, ok))
  {
    var answer := UpdateUserSpec(s.rows, u, s.clock, fault, s.cfg.changedOnly);
    UpdateKeepsTableValid(s.rows, u, s.clock, fault, s.cfg.changedOnly);
    assert answer.rows != s.rows ==> answer.rows == s.rows[u.id := Updated(s.rows[u.id], u, s.clock)];
    WriteIsCoherent(s, Update(u), answer, "usecase.Update", Storing(Update(u), u, s.clock, Ok));
  }

  lemma DeleteIsCoherent(s: State, id: string, fault: Fault, ok: bool)
    requires ValidTable(s.rows) && !fault.Lost?
    ensures CoherentMove(s, Delete(id), FirstStep(s, Delete(id), fault, ok))
  {
  }

  lemma ReadIsCoherentMove(s: State, call: Call, fault: Fault, ok: bool)
    requires ValidTable(s.rows) && (call.GetByID? || IsDelivery(call))
    ensures CoherentMove(s, call, FirstStep(s, call, fault, ok))
  {
  }

  /** The first step leaves table and program counter as a database step may. */
  lemma FirstIsCoherent(s: State, call: Call, fault: Fault, ok: bool)
    requires ValidTable(s.rows) && !fault.Lost?
    ensures CoherentMove(s, call, FirstStep(s, call, fault, ok))
  {
    match call
    case Add(u) => AddIsCoherent(s, u, fault, ok);
    case Update(u) => UpdateIsCoherent(s, u, fault, ok);
    case Delete(id) => DeleteIsCoherent(s, id, fault, ok);
    case _ => ReadIsCoherentMove(s, call, fault, ok);
  }

  lemma AdvanceKeepsCoherent(s: State, op: nat, fault: Fault)
    requires Coherent(s) && op in s.ops && !fault.Lost?
    ensures Coherent(AdvanceOp(s, op, fault, true))
  {
    assert OpCoherent(s.rows, s.ops[op]);
    match s.ops[op]
    case Ready(call) =>
      var m := FirstStep(s, call, fault, true);
      FirstIsCoherent(s, call, fault, true);
      MoveKeepsCoherent(s, op, m.rows, m.next);
    case Missed(call) =>
      ReadIsCoherent(s, call, fault);
      MoveKeepsCoherent(s, op, s.rows, ReadStep(s, call, fault));
      assert s.(rows := s.rows) == s;
    case Storing(call, u, _, reply) =>
      CacheStepKeepsCoherent(s, op, SetUser(s, u, true), Done(call, reply, s.clock));
    case Evicting(call, _, reply) =>
      CacheStepKeepsCoherent(s, op, DeleteKey(s, IdOf(call), true), Done(call, reply, s.clock));
    case Done(_, _, _) =>
  }

  lemma StartKeepsCoherent(s: State, op: nat, call: Call)
    requires Coherent(s) && Calm(s, Start(op, call))
    ensures Coherent(Put(s, op, Ready(call)))
  {
    var t := Put(s, op, Ready(call));
    forall id ensures EntryCoherent(t, id) {
      assert EntryCoherent(s, id);
      if id in s.cache && BusyOn(s, id) {
        var o :| o in s.ops && Busy(s.ops[o]) && IdOf(s.ops[o].call) == id;
        assert o in t.ops && t.ops[o] == s.ops[o];
        assert BusyOn(t, id);
      }
    }
    forall o | o in t.ops ensures OpCoherent(t.rows, t.ops[o]) {
      if o != op {
        assert OpCoherent(s.rows, s.ops[o]);
      }
    }
    forall a, b | InFlight(t, a) && InFlight(t, b) && a != b ensures IdOf(t.ops[a].call) != IdOf(t.ops[b].call) {
      assert a != op ==> InFlight(s, a);
      assert b != op ==> InFlight(s, b);
    }
  }

  /** A step that touches neither table nor operations, and in the master cache only forgets entries. */
  lemma ForgettingKeepsCoherent(s: State, t: State)
    requires Coherent(s) && t.rows == s.rows && t.ops == s.ops && t.cfg == s.cfg
    requires t.cache.Keys <= s.cache.Keys && forall id | id in t.cache :: t.cache[id] == s.cache[id]
    ensures Coherent(t)
  {
    forall id ensures EntryCoherent(t, id) {
      assert EntryCoherent(s, id);
      if BusyOn(s, id) {
        var o :| o in s.ops && Busy(s.ops[o]) && IdOf(s.ops[o].call) == id;
        assert o in t.ops && t.ops[o] == s.ops[o];
        assert BusyOn(t, id);
      }
    }
    forall o | o in t.ops ensures OpCoherent(t.rows, t.ops[o]) {
      assert OpCoherent(s.rows, s.ops[o]);
    }
    forall a, b | InFlight(t, a) && InFlight(t, b) && a != b ensures IdOf(t.ops[a].call) != IdOf(t.ops[b].call) {
      assert InFlight(s, a) && InFlight(s, b);
    }
  }

  lemma StepKeepsCoherent(s: State, e: Event)
    requires Coherent(s) && Calm(s, e)
    ensures Coherent(Next(s, e)) && Next(s, e).cfg == s.cfg
  {
    match e
    case Start(op, call) => StartKeepsCoherent(s, op, call);
    case Advance(op, fault, ok) =>
      if op in s.ops {
        AdvanceKeepsCoherent(s, op, fault);
      }
    case _ => ForgettingKeepsCoherent(s, Next(s, e));
  }

  lemma CalmPrefix(s0: State, es: seq<Event>)
    requires es != [] && CalmRun(s0, es)
    ensures CalmRun(s0, es[..|es| - 1]) && Calm(Exec(s0, es[..|es| - 1]), es[|es| - 1])
  {
    var fs := es[..|es| - 1];
    forall n | 0 <= n < |fs| ensures Calm(Exec(s0, fs[..n]), fs[n]) {
      assert fs[..n] == es[..n];
    }
  }

  lemma {:induction false} CalmRunsAreCoherent(s0: State, es: seq<Event>)
    requires Initial(s0) && CalmRun(s0, es)
    ensures Coherent(Exec(s0, es)) && Exec(s0, es).cfg == s0.cfg
  {
    if es != [] {
      CalmPrefix(s0, es);
      CalmRunsAreCoherent(s0, es[..|es| - 1]);
      var s := Exec(s0, es[..|es| - 1]);
      StepKeepsCoherent(s, es[|es| - 1]);
    }
  }

  /** The reply's record is the row under `id`, or the reply says that there is none. */
  ghost predicate TellsTheTable(rows: Table, id: string, reply: Reply) {
    if id in rows then reply.Found? && Pub(reply.user) == Pub(rows[id])
    else reply.Fail? && CodeOf(Some(reply.error)) == Some(NotFound)
  }

  /** The step that fixes GetByID's answer, be it a cache hit or the read after a miss, tells what the table holds at
      that instant: the row, or NotFound when there is none. Only a read that is not served answers DataAccess. */
  lemma {:induction false} GetByIDAnswersAsTheTable(s0: State, es: seq<Event>, op: nat, fault: Fault)
    requires Initial(s0) && !s0.cfg.hasReplica && CalmRun(s0, es)
    requires var s := Exec(s0, es); op in s.ops && s.ops[op].call.GetByID? && (s.ops[op].Ready? || s.ops[op].Missed?)
    ensures var s := Exec(s0, es); var id := s.ops[op].call.id; var next := AdvanceOp(s, op, fault, true).ops[op];
            && (s.ops[op].Ready? && !next.Missed? ==> next.Done? && TellsTheTable(s.rows, id, next.reply))
            && (s.ops[op].Missed? && fault.Served? ==>
                (next.Storing? || next.Done?) && TellsTheTable(s.rows, id, next.reply))
            && (s.ops[op].Missed? && !fault.Served? ==>
                next.Done? && next.reply.Fail? && CodeOf(Some(next.reply.error)) == Some(DataAccess))
  {
    var s := Exec(s0, es);
    CalmRunsAreCoherent(s0, es);
    HitIsTheRow(s, op);
    ReadTellsTheTable(s, s.ops[op].call, fault);
  }

  lemma ReadTellsTheTable(s: State, call: Call, fault: Fault)
    requires call.GetByID?
    ensures var next := ReadStep(s, call, fault);
            if fault.Served? then (next.Storing? || next.Done?) && TellsTheTable(s.rows, call.id, next.reply)
            else next.Done? && next.reply.Fail? && CodeOf(Some(next.reply.error)) == Some(DataAccess)
  {
    match GetUserByIDSpec(s.rows, call.id, fault)
    case Row(_) =>
    case Failed(e) =>
      WrappingIsTransparent(["usecase.GetByID"], e);
      assert WrapAll(["usecase.GetByID"], e) == Wrapped("usecase.GetByID", e);
  }

  lemma HitIsTheRow(s: State, op: nat)
    requires Coherent(s) && op in s.ops
    ensures s.ops[op].Ready? && s.ops[op].call.GetByID? ==>
              var id := s.ops[op].call.id; id in s.cache ==> RecordMatches(s.rows, id, s.cache[id].user)
  {
    if s.ops[op].Ready? && s.ops[op].call.GetByID? {
      var id := s.ops[op].call.id;
      assert EntryCoherent(s, id);
      forall o | o in s.ops && Busy(s.ops[o]) ensures IdOf(s.ops[o].call) != id {
        assert InFlight(s, o) && InFlight(s, op);
      }
    }
  }
}
