/** When overlapping operations leave the cache right. With working cache calls and no lost database answer, but any
    interleaving, an entry is right exactly when the last record stored under its id was still the row. */
module Overlaps {
  import opened Domain
  import opened Database
  import opened StoreMachine
  import opened Coherence
  import Scripts

  /** Cache calls work, and a database error means that nothing happened. Operations may overlap. */
  predicate Works(e: Event) {
    CacheWorks(e) && AnswerArrives(e)
  }

  ghost predicate WorkingRun(es: seq<Event>) {
    forall e | e in es :: Works(e)
  }

  /** The event is the cache step that puts a record under `id`. */
  predicate Stores(s: State, e: Event, id: string) {
    s.cfg.hasCache && e.Advance? && e.op in s.ops && s.ops[e.op].Storing? && s.ops[e.op].user.id == id
  }

  /** That record is still the row. */
  ghost predicate StoresTheRow(s: State, e: Event, id: string) {
    Stores(s, e, id) && RecordMatches(s.rows, id, s.ops[e.op].user)
  }

  /** Event n is the last store under `id`. */
  ghost predicate LastStore(s0: State, es: seq<Event>, id: string, n: nat) {
    && n < |es| && Stores(Exec(s0, es[..n]), es[n], id)
    && forall m | n < m < |es| :: !Stores(Exec(s0, es[..m]), es[m], id)
  }

  /** A write between its database step and its cache step. */
  predicate Unfinished(op: Op, id: string) {
    IdOf(op.call) == id && ((op.Storing? && (op.call.Add? || op.call.Update?)) || (op.Evicting? && op.call.Delete?))
  }

  ghost predicate WritePending(s: State, id: string) {
    exists op :: op in s.ops && Unfinished(s.ops[op], id)
  }

  ghost predicate EntryMatches(s: State, id: string) {
    id in s.cache && RecordMatches(s.rows, id, s.cache[id].user)
  }

  /** The last store decides. */
  ghost predicate DecidedBy(s0: State, es: seq<Event>, id: string, n: nat) {
    && LastStore(s0, es, id, n)
    && (EntryMatches(Exec(s0, es), id) <==> StoresTheRow(Exec(s0, es[..n]), es[n], id))
  }

  ghost predicate Decided(s0: State, es: seq<Event>, id: string) {
    exists n: nat :: DecidedBy(s0, es, id, n)
  }

  /** What an operation carries belongs to its own id. */
  ghost predicate OwnId(op: Op) {
    match op
    case Storing(call, u, _, _) => u.id == IdOf(call) && !call.Delete? && !call.ProcessUserDeleted?
    case Evicting(call, _, _) => call.Delete? || call.ProcessUserDeleted?
    case _ => true
  }

  ghost predicate Orderly(s: State) {
    && ValidTable(s.rows)
    && (forall op | op in s.ops :: OwnId(s.ops[op]))
    && (forall op | op in s.ops && s.ops[op].Missed? :: s.ops[op].call.GetByID?)
    && (!s.cfg.hasCache ==> s.cache == map[])
  }

  lemma ReadIsOwn(s: State, call: Call, fault: Fault)
    requires Keyed(s.rows) && !IsEviction(call)
    ensures var next := ReadStep(s, call, fault); OwnId(next) && !next.Missed? && next.call == call
  {
  }

  predicate IsEviction(call: Call) {
    call.Delete? || call.ProcessUserDeleted?
  }

  /** A first step that changes the table has its cache step still to come. */
  lemma FirstIsOrderly(s: State, call: Call, fault: Fault)
    requires ValidTable(s.rows) && !fault.Lost?
    ensures var m := FirstStep(s, call, fault, true);
            && CoherentMove(s, call, m) && OwnId(m.next) && (m.next.Missed? ==> call.GetByID?)
            && (m.rows != s.rows ==> Unfinished(m.next, IdOf(call)))
  {
    FirstIsCoherent(s, call, fault, true);
    match call
    case GetByID(_) =>
    case ProcessUserCreated(_) => ReadIsOwn(s, call, fault);
    case _ =>
  }

  /** The machine's effect on table and cache under one id, for an operation's step. */
  ghost predicate QuietUnder(s: State, t: State, id: string) {
    && (id in t.cache ==> id in s.cache && t.cache[id] == s.cache[id])
    && (id in t.rows <==> id in s.rows) && (id in t.rows ==> t.rows[id] == s.rows[id])
  }

  /** One step of operation `op`: it stores under `id`, evicts `id`, starts a write on `id`, or leaves `id` alone. */
  ghost predicate UnderId(s: State, t: State, e: Event, id: string)
    requires e.Advance? && e.op in s.ops && e.op in t.ops
  {
    && (forall o | o in s.ops && o != e.op :: o in t.ops && t.ops[o] == s.ops[o])
    && (Stores(s, e, id) ==> (EntryMatches(t, id) <==> StoresTheRow(s, e, id)))
    && (!Stores(s, e, id) ==> QuietUnder(s, t, id) || Unfinished(t.ops[e.op], id))
    && (Unfinished(s.ops[e.op], id) ==> Stores(s, e, id) || id !in t.cache)
  }

  lemma PutIsOrderly(s: State, op: nat, next: Op)
    requires Orderly(s) && OwnId(next) && (next.Missed? ==> next.call.GetByID?)
    ensures Orderly(Put(s, op, next))
  {
  }

  /** A database step. */
  lemma MoveUnderId(s: State, e: Event, rows': Table, next: Op, id: string)
    requires Orderly(s) && e.Advance? && e.op in s.ops && !Busy(s.ops[e.op]) && ValidTable(rows')
    requires OwnId(next) && (next.Missed? ==> next.call.GetByID?) && SameElsewhere(s.rows, rows', IdOf(next.call))
    requires rows' != s.rows ==> Unfinished(next, IdOf(next.call))
    ensures var t := Put(s.(rows := rows'), e.op, next); Orderly(t) && UnderId(s, t, e, id)
  {
    PutIsOrderly(s.(rows := rows'), e.op, next);
  }

  lemma StoreUnderId(s: State, e: Event, id: string)
    requires Orderly(s) && e.Advance? && e.op in s.ops && s.ops[e.op].Storing?
    ensures var op := s.ops[e.op]; var t := Put(SetUser(s, op.user, true), e.op, Done(op.call, op.reply, s.clock));
            Orderly(t) && UnderId(s, t, e, id)
  {
    assert OwnId(s.ops[e.op]);
    PutIsOrderly(SetUser(s, s.ops[e.op].user, true), e.op, Done(s.ops[e.op].call, s.ops[e.op].reply, s.clock));
  }

  lemma EvictUnderId(s: State, e: Event, id: string)
    requires Orderly(s) && e.Advance? && e.op in s.ops && s.ops[e.op].Evicting?
    ensures var op := s.ops[e.op]; var t :=
        Put(DeleteKey(s, IdOf(op.call), true), e.op, Done(op.call, op.reply, s.clock));
            Orderly(t) && UnderId(s, t, e, id)
  {
    assert OwnId(s.ops[e.op]);
    PutIsOrderly(DeleteKey(s, IdOf(s.ops[e.op].call), true), e.op, Done(s.ops[e.op].call, s.ops[e.op].reply, s.clock));
  }

  lemma StepUnderId(s: State, e: Event, id: string)
    requires Orderly(s) && e.Advance? && e.op in s.ops && Works(e)
    ensures var t := Next(s, e); e.op in t.ops && Orderly(t) && UnderId(s, t, e, id)
  {
    match s.ops[e.op]
    case Ready(call) =>
      var m := FirstStep(s, call, e.fault, true);
      FirstIsOrderly(s, call, e.fault);
      MoveUnderId(s, e, m.rows, m.next, id);
    case Missed(call) =>
      ReadIsOwn(s, call, e.fault);
      MoveUnderId(s, e, s.rows, ReadStep(s, call, e.fault), id);
    case Storing(_, _, _, _) => StoreUnderId(s, e, id);
    case Evicting(_, _, _) => EvictUnderId(s, e, id);
    case Done(_, _, _) =>
  }

  lemma StepIsOrderly(s: State, e: Event)
    requires Orderly(s) && Works(e)
    ensures Orderly(Next(s, e))
  {
    if e.Advance? && e.op in s.ops {
      StepUnderId(s, e, "");
    }
  }

  lemma {:induction false} WorkingRunsAreOrderly(s0: State, es: seq<Event>)
    requires Initial(s0) && WorkingRun(es)
    ensures Orderly(Exec(s0, es))
  {
    if es != [] {
      assert es[|es| - 1] in es && forall e | e in es[..|es| - 1] :: e in es;
      WorkingRunsAreOrderly(s0, es[..|es| - 1]);
      StepIsOrderly(Exec(s0, es[..|es| - 1]), es[|es| - 1]);
    }
  }

  /** Everything but an operation's step only forgets entries. */
  lemma OtherStepsAreQuiet(s: State, e: Event, id: string)
    requires Orderly(s) && (e.Advance? ==> e.op !in s.ops)
    ensures var t := Next(s, e); QuietUnder(s, t, id) && (WritePending(s, id) ==> WritePending(t, id))
    ensures !Stores(s, e, id)
  {
    var t := Next(s, e);
    if WritePending(s, id) {
      var o :| o in s.ops && Unfinished(s.ops[o], id);
      assert o in t.ops && Unfinished(t.ops[o], id);
    }
  }

  /** The last store stays the last while nothing else is stored. */
  lemma LastStoreStays(s0: State, es: seq<Event>, id: string, n: nat)
    requires es != [] && LastStore(s0, es[..|es| - 1], id, n) && !Stores(Exec(s0, es[..|es| - 1]), es[|es| - 1], id)
    ensures LastStore(s0, es, id, n) && es[..|es| - 1][..n] == es[..n]
  {
    var fs := es[..|es| - 1];
    assert fs[..n] == es[..n];
    forall m | n < m < |es| ensures !Stores(Exec(s0, es[..m]), es[m], id) {
      if m < |fs| {
        assert fs[..m] == es[..m];
      }
    }
  }

  lemma DecisionStays(s0: State, es: seq<Event>, id: string, n: nat)
    requires es != [] && DecidedBy(s0, es[..|es| - 1], id, n) && !Stores(Exec(s0, es[..|es| - 1]), es[|es| - 1], id)
    requires QuietUnder(Exec(s0, es[..|es| - 1]), Exec(s0, es), id) && id in Exec(s0, es).cache
    ensures DecidedBy(s0, es, id, n)
  {
    LastStoreStays(s0, es, id, n);
  }

  /** The invariant: under every cached id a write has its cache step to come, or the last store decides. */
  lemma {:induction false} EntryIsDecided(s0: State, es: seq<Event>, id: string)
    requires Initial(s0) && WorkingRun(es) && id in Exec(s0, es).cache
    ensures WritePending(Exec(s0, es), id) || Decided(s0, es, id)
  {
    if es != [] {
      var fs, e := es[..|es| - 1], es[|es| - 1];
      var s, t := Exec(s0, fs), Exec(s0, es);
      assert e in es && forall f | f in fs :: f in es;
      WorkingRunsAreOrderly(s0, fs);
      if Stores(s, e, id) {
        StepUnderId(s, e, id);
        assert DecidedBy(s0, es, id, |fs|);
      } else if e.Advance? && e.op in s.ops {
        StepUnderId(s, e, id);
        if Unfinished(t.ops[e.op], id) {
          assert e.op in t.ops;
        } else {
          EntryIsDecided(s0, fs, id);
          QuietStepDecides(s0, es, id);
        }
      } else {
        OtherStepsAreQuiet(s, e, id);
        EntryIsDecided(s0, fs, id);
        QuietStepDecides(s0, es, id);
      }
    }
  }

  lemma QuietStepDecides(s0: State, es: seq<Event>, id: string)
    requires es != [] && id in Exec(s0, es).cache
    requires var s, t, e := Exec(s0, es[..|es| - 1]), Exec(s0, es), es[|es| - 1];
             && QuietUnder(s, t, id) && !Stores(s, e, id)
             && (forall o | o in s.ops && Unfinished(s.ops[o], id) :: o in t.ops && t.ops[o] == s.ops[o])
    requires WritePending(Exec(s0, es[..|es| - 1]), id) || Decided(s0, es[..|es| - 1], id)
    ensures WritePending(Exec(s0, es), id) || Decided(s0, es, id)
  {
    var s, t := Exec(s0, es[..|es| - 1]), Exec(s0, es);
    if WritePending(s, id) {
      var o :| o in s.ops && Unfinished(s.ops[o], id);
      assert o in t.ops && Unfinished(t.ops[o], id);
    } else {
      var n: nat :| DecidedBy(s0, es[..|es| - 1], id, n);
      DecisionStays(s0, es, id, n);
    }
  }

  /** Overlap, exactly: for every interleaving, once no write on `id` awaits its cache step, a cached entry equals
      its row on the public columns if and only if the last record stored under `id` was the row when it was stored.
      */
  lemma EntryIsRightExactly(s0: State, es: seq<Event>, id: string, n: nat)
    requires Initial(s0) && WorkingRun(es)
    requires id in Exec(s0, es).cache && !WritePending(Exec(s0, es), id)
    ensures exists n: nat :: LastStore(s0, es, id, n)
    ensures LastStore(s0, es, id, n) ==>
              (EntryMatches(Exec(s0, es), id) <==> StoresTheRow(Exec(s0, es[..n]), es[n], id))
  {
    EntryIsDecided(s0, es, id);
    var k: nat :| DecidedBy(s0, es, id, k);
    assert LastStore(s0, es, id, k);
    if LastStore(s0, es, id, n) {
      assert n == k;
    }
  }

  /** In calm runs every store puts the row: this is why the cache is right where nothing overlaps. */
  lemma CalmStoresPutTheRow(s0: State, es: seq<Event>, id: string, n: nat)
    requires Initial(s0) && CalmRun(s0, es) && n < |es| && Stores(Exec(s0, es[..n]), es[n], id)
    ensures StoresTheRow(Exec(s0, es[..n]), es[n], id)
  {
    var fs := es[..n];
    forall m | 0 <= m < |fs| ensures Calm(Exec(s0, fs[..m]), fs[m]) {
      assert fs[..m] == es[..m];
    }
    CalmRunsAreCoherent(s0, fs);
    var s := Exec(s0, fs);
    assert OpCoherent(s.rows, s.ops[es[n].op]);
  }

  /** Event k is the database step that gave operation `op` the record it is about to store. */
  ghost predicate ReadAt(s0: State, es: seq<Event>, op: nat, k: nat) {
    && k < |es| && es[k].Advance? && es[k].op == op
    && var s, t, now := Exec(s0, es[..k]), Exec(s0, es[..k + 1]), Exec(s0, es);
       && op in s.ops && (s.ops[op].Ready? || s.ops[op].Missed?)
       && op in t.ops && op in now.ops && t.ops[op] == now.ops[op] && now.ops[op].Storing?
       && RecordMatches(t.rows, now.ops[op].user.id, now.ops[op].user)
  }

  /** A statement that succeeds leaves the record it wrote as the row. */
  lemma WrittenIsTheRow(s: State, call: Call, u: User, answer: Answer, context: string, next: Op)
    requires answer.err.None? ==> RecordMatches(answer.rows, u.id, u)
    requires next.Storing? ==> next.user == u
    ensures var m := WriteStep(s, call, answer, context, next);
            m.next.Storing? ==> RecordMatches(m.rows, m.next.user.id, m.next.user)
  {
  }

  lemma FirstStoresTheRow(s: State, call: Call, fault: Fault, ok: bool)
    requires Keyed(s.rows)
    ensures var m := FirstStep(s, call, fault, ok);
            m.next.Storing? ==> RecordMatches(m.rows, m.next.user.id, m.next.user)
  {
    match call
    case Add(u) =>
      WrittenIsTheRow(s, call, u, AddUserSpec(s.rows, u, s.clock, fault), "usecase.Add", Storing(call, u, s.clock, Ok));
    case Update(u) =>
      var answer := UpdateUserSpec(s.rows, u, s.clock, fault, s.cfg.changedOnly);
      WrittenIsTheRow(s, call, u, answer, "usecase.Update", Storing(call, u, s.clock, Ok));
    case _ =>
  }

  /** A database step that leaves a record to store leaves it as the row. */
  lemma StoringHasTheRow(s: State, op: nat, fault: Fault, ok: bool)
    requires Keyed(s.rows) && op in s.ops && !Busy(s.ops[op])
    ensures var t := AdvanceOp(s, op, fault, ok);
            t.ops[op].Storing? ==> RecordMatches(t.rows, t.ops[op].user.id, t.ops[op].user)
  {
    if s.ops[op].Ready? {
      FirstStoresTheRow(s, s.ops[op].call, fault, ok);
    }
  }

  /** Whatever fails, every store has its database step. */
  lemma {:induction false} StoreHasItsStep(s0: State, es: seq<Event>, op: nat)
    requires Initial(s0) && op in Exec(s0, es).ops && Exec(s0, es).ops[op].Storing?
    ensures exists k: nat :: ReadAt(s0, es, op, k)
  {
    var fs, e := es[..|es| - 1], es[|es| - 1];
    var s, t := Exec(s0, fs), Exec(s0, es);
    RunKeepsTableValid(s0, fs);
    if op in s.ops && s.ops[op] == t.ops[op] {
      StoreHasItsStep(s0, fs, op);
      var k: nat :| ReadAt(s0, fs, op, k);
      assert fs[..k] == es[..k] && fs[..k + 1] == es[..k + 1];
      assert ReadAt(s0, es, op, k);
    } else {
      if e.Advance? && e.op in s.ops {
        Scripts.AdvanceFrame(s, e.op, e.fault, e.cacheOk);
      }
      StoringIsNew(s, e, op);
      StoringHasTheRow(s, op, e.fault, e.cacheOk);
      assert es[..|fs|] == fs && es[..|fs| + 1] == es;
      assert ReadAt(s0, es, op, |fs|);
    }
  }

  lemma StoringIsNew(s: State, e: Event, op: nat)
    requires var t := Next(s, e); op in t.ops && t.ops[op].Storing? && !(op in s.ops && s.ops[op] == t.ops[op])
    ensures e.Advance? && e.op == op && op in s.ops && (s.ops[op].Ready? || s.ops[op].Missed?)
  {
    if e.Advance? && e.op in s.ops {
      Scripts.AdvanceFrame(s, e.op, e.fault, e.cacheOk);
    }
  }

  /** The public columns of the row are the same in two tables. */
  ghost predicate SamePublicRow(rows: Table, rows': Table, id: string) {
    id in rows && id in rows' && Pub(rows[id]) == Pub(rows'[id])
  }

  /** A store is stale exactly when the row has moved since its own database step. */
  lemma StoreIsStaleExactly(s0: State, es: seq<Event>, id: string, n: nat, k: nat)
    requires n < |es| && Stores(Exec(s0, es[..n]), es[n], id) && ReadAt(s0, es[..n], es[n].op, k)
    ensures StoresTheRow(Exec(s0, es[..n]), es[n], id)
       <==> SamePublicRow(Exec(s0, es[..n][..k + 1]).rows, Exec(s0, es[..n]).rows, id)
  {
  }

  /** The overlap itself: for every interleaving, once no write on `id` awaits its cache step, a cached entry is
      right if and only if the row did not move between the database step and the cache step of the operation that
      stored it last. */
  lemma EntryIsRightUnlessRowMoved(s0: State, es: seq<Event>, id: string) returns (n: nat, k: nat)
    requires Initial(s0) && WorkingRun(es)
    requires id in Exec(s0, es).cache && !WritePending(Exec(s0, es), id)
    ensures LastStore(s0, es, id, n) && ReadAt(s0, es[..n], es[n].op, k)
    ensures EntryMatches(Exec(s0, es), id)
       <==> SamePublicRow(Exec(s0, es[..n][..k + 1]).rows, Exec(s0, es[..n]).rows, id)
  {
    EntryIsRightExactly(s0, es, id, 0);
    n :| LastStore(s0, es, id, n);
    EntryIsRightExactly(s0, es, id, n);
    StoreHasItsStep(s0, es[..n], es[n].op);
    k :| ReadAt(s0, es[..n], es[n].op, k);
    StoreIsStaleExactly(s0, es, id, n, k);
  }
}
