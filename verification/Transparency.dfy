/** Two runs of the store, with different caches and with different deliveries, side by side. The table and every write
    are the same whatever happens; in calm runs GetByID answers the same too. */
module Transparency {
  import opened Options
  import opened Errors
  import opened Domain
  import opened Database
  import opened StoreMachine
  import opened Coherence
  import opened Scripts

  ghost predicate SameReply(p: Reply, q: Reply) {
    if p.Found? && q.Found? then Pub(p.user) == Pub(q.user) else p == q
  }

  /** One side of a GetByID has answered from its cache while the other is still on its way to the table. */
  ghost predicate Ahead(rows: Table, x: Op, y: Op) {
    && x.Done? && x.reply.Found? && x.call.GetByID?
    && (y.Missed? || y.Storing?)
    && (y.Missed? ==> RecordMatches(rows, x.call.id, x.reply.user))
    && (y.Storing? ==> SameReply(x.reply, y.reply))
  }

  /** What GetByID answers when the database refuses its read. */
  const READ_FAILED: Reply :=
    Fail(Wrapped("usecase.GetByID", NewDataAccessError("failed to query user", Some(DriverError(Refused)))))

  /** Two answers to one call: the same on the public columns, or one is the failure of that GetByID's own read. */
  ghost predicate SameAnswer(call: Call, p: Reply, q: Reply) {
    SameReply(p, q) || (call.GetByID? && (p == READ_FAILED || q == READ_FAILED))
  }

  ghost predicate SameOp(rows: Table, x: Op, y: Op) {
    && x.call == y.call
    && (Ahead(rows, x, y) || Ahead(rows, y, x) ||
        match (x, y) {
          case (Ready(_), Ready(_)) => true
          case (Missed(_), Missed(_)) => true
          case (Storing(_, _, _, p), Storing(_, _, _, q)) => SameReply(p, q)
          case (Evicting(_, _, p), Evicting(_, _, q)) => p == q
          case (Done(_, p, _), Done(_, q, _)) => SameAnswer(x.call, p, q)
          case _ => false
        })
  }

  /** `a` has run `b`'s events and, besides, the deliveries `late`. */
  ghost predicate Alike(a: State, b: State, late: set<nat>) {
    && a.rows == b.rows && a.clock == b.clock && a.cfg.changedOnly == b.cfg.changedOnly
    && (forall op | op !in late ::
          (op in a.ops <==> op in b.ops) && (op in a.ops ==> SameOp(a.rows, a.ops[op], b.ops[op])))
    && (forall op | op in late :: op !in b.ops && (op in a.ops ==> IsDelivery(a.ops[op].call)))
  }

  ghost predicate OnlyDeliveries(es: seq<Event>, late: set<nat>) {
    forall n | 0 <= n < |es| && es[n].Start? && es[n].op in late :: IsDelivery(es[n].call)
  }

  /** A delivery's step does not touch the table nor any other operation. */
  lemma DeliveryIsLocal(s: State, op: nat, fault: Fault, ok: bool)
    requires op in s.ops && IsDelivery(s.ops[op].call)
    ensures var t := AdvanceOp(s, op, fault, ok);
            && t.rows == s.rows && t.clock == s.clock && t.cfg == s.cfg && t.ops.Keys == s.ops.Keys
            && (forall o | o in s.ops && o != op :: t.ops[o] == s.ops[o])
            && t.ops[op].call == s.ops[op].call
  {
  }

  lemma DeliveryStepIsInvisible(a: State, b: State, e: Event, late: set<nat>)
    requires Alike(a, b, late) && Concerns(e, late) && (e.Start? ==> IsDelivery(e.call))
    ensures Alike(Next(a, e), b, late)
  {
    if e.Advance? && e.op in a.ops {
      DeliveryIsLocal(a, e.op, e.fault, e.cacheOk);
    }
  }

  lemma FirstStepsAlike(a: State, b: State, op: nat, fault: Fault)
    requires ReadCoherent(a) && ReadCoherent(b) && a.rows == b.rows && a.clock == b.clock &&
        a.cfg.changedOnly == b.cfg.changedOnly
    requires op in a.ops && op in b.ops && a.ops[op].Ready? && b.ops[op] == a.ops[op]
    ensures var call := a.ops[op].call; var m, n := FirstStep(a, call, fault, true), FirstStep(b, call, fault, true);
            m.rows == n.rows && SameOp(m.rows, m.next, n.next)
  {
    HitIsTheRow(a, op);
    HitIsTheRow(b, op);
  }

  /** The next steps of one operation on both sides agree on the table and stay alike. */
  ghost predicate StepsAlike(a: State, b: State, op: nat, fault: Fault)
    requires op in a.ops && op in b.ops
  {
    var s, t := AdvanceOp(a, op, fault, true), AdvanceOp(b, op, fault, true);
    s.rows == t.rows && SameOp(s.rows, s.ops[op], t.ops[op])
  }

  lemma RepliesStandAlike(rows: Table, x: Op, y: Op)
    requires SameOp(rows, x, y) && (Busy(x) || x.Done?) && (Busy(y) || y.Done?)
    ensures SameAnswer(x.call, x.reply, y.reply)
  {
  }

  lemma LaterStepsAlike(a: State, b: State, op: nat, fault: Fault)
    requires a.rows == b.rows && op in a.ops && op in b.ops && SameOp(a.rows, a.ops[op], b.ops[op])
    requires (Busy(a.ops[op]) || a.ops[op].Done?) && (Busy(b.ops[op]) || b.ops[op].Done?)
    ensures StepsAlike(a, b, op, fault)
  {
    LastStep(a, op, fault);
    LastStep(b, op, fault);
    RepliesStandAlike(a.rows, a.ops[op], b.ops[op]);
    OnlyFirstStepsWrite(a, op, fault);
    OnlyFirstStepsWrite(b, op, fault);
  }

  lemma OpStepsAlike(a: State, b: State, op: nat, fault: Fault)
    requires ReadCoherent(a) && ReadCoherent(b) && a.rows == b.rows && a.clock == b.clock &&
        a.cfg.changedOnly == b.cfg.changedOnly
    requires op in a.ops && op in b.ops && SameOp(a.rows, a.ops[op], b.ops[op]) && !fault.Lost?
    ensures StepsAlike(a, b, op, fault)
  {
    var x, y := a.ops[op], b.ops[op];
    if x.Ready? {
      FirstStepsAlike(a, b, op, fault);
    } else if x.Missed? || y.Missed? {
      OnlyFirstStepsWrite(a, op, fault);
      OnlyFirstStepsWrite(b, op, fault);
      ReadStepsAlike(a, b, op, fault);
    } else {
      LaterStepsAlike(a, b, op, fault);
    }
  }

  lemma OnlyFirstStepsWrite(s: State, op: nat, fault: Fault)
    requires op in s.ops && !s.ops[op].Ready?
    ensures AdvanceOp(s, op, fault, true).rows == s.rows
  {
  }

  /** The cache step ends an operation with the reply it held. */
  lemma LastStep(s: State, op: nat, fault: Fault)
    requires op in s.ops && (Busy(s.ops[op]) || s.ops[op].Done?)
    ensures var next := AdvanceOp(s, op, fault, true).ops[op];
            next.Done? && next.call == s.ops[op].call && next.reply == s.ops[op].reply
  {
  }

  lemma ReadStepsAlike(a: State, b: State, op: nat, fault: Fault)
    requires ReadCoherent(a) && ReadCoherent(b) && a.rows == b.rows && a.clock == b.clock
    requires op in a.ops && op in b.ops && SameOp(a.rows, a.ops[op], b.ops[op])
    requires (a.ops[op].Missed? || b.ops[op].Missed?) && !fault.Lost?
    ensures SameOp(a.rows, AdvanceOp(a, op, fault, true).ops[op], AdvanceOp(b, op, fault, true).ops[op])
  {
    assert OpCoherent(a.rows, a.ops[op]) && OpCoherent(b.rows, b.ops[op]);
    var call := a.ops[op].call;
    var read := ReadStep(a, call, fault);
    assert read == ReadStep(b, call, fault);
    if fault.Refused? {
      assert call.GetByID? && read.Done? && read.reply == READ_FAILED;
    }
  }

  /** Where two operations stand relative to each other survives a change of another id's row. */
  lemma SameOpSurvives(a: State, b: State, op: nat, other: nat, rows': Table)
    requires ReadCoherent(a) && ReadCoherent(b) && op != other
    requires op in a.ops && op in b.ops && other in a.ops && other in b.ops
    requires SameOp(a.rows, a.ops[op], b.ops[op]) && a.ops[other].call == b.ops[other].call
    requires SameElsewhere(a.rows, rows', IdOf(a.ops[other].call))
    requires rows' == a.rows || (InFlight(a, other) && InFlight(b, other))
    ensures SameOp(rows', a.ops[op], b.ops[op])
  {
    if rows' != a.rows {
      if InFlight(a, op) {
        assert IdOf(a.ops[op].call) != IdOf(a.ops[other].call);
      }
      if InFlight(b, op) {
        assert IdOf(b.ops[op].call) != IdOf(b.ops[other].call);
      }
    }
  }

  lemma AdvanceAlike(a: State, b: State, op: nat, fault: Fault, late: set<nat>)
    requires ReadCoherent(a) && ReadCoherent(b) && Alike(a, b, late) && !fault.Lost?
    requires op !in late && op in a.ops
    ensures Alike(AdvanceOp(a, op, fault, true), AdvanceOp(b, op, fault, true), late)
  {
    var s, t := AdvanceOp(a, op, fault, true), AdvanceOp(b, op, fault, true);
    OpStepsAlike(a, b, op, fault);
    AdvanceIsLocal(a, op, fault);
    AdvanceIsLocal(b, op, fault);
    forall o | o !in late && o in a.ops && o != op ensures SameOp(s.rows, s.ops[o], t.ops[o]) {
      SameOpSurvives(a, b, o, op, s.rows);
    }
  }

  /** A step changes no other operation, and the table only in its own row and only as a first step. */
  lemma AdvanceIsLocal(s: State, op: nat, fault: Fault)
    requires ValidTable(s.rows) && op in s.ops && !fault.Lost?
    ensures var t := AdvanceOp(s, op, fault, true);
            && t.clock == s.clock && t.cfg == s.cfg && t.ops.Keys == s.ops.Keys
            && (forall o | o in s.ops && o != op :: t.ops[o] == s.ops[o])
            && t.ops[op].call == s.ops[op].call
            && SameElsewhere(s.rows, t.rows, IdOf(s.ops[op].call))
            && (t.rows == s.rows || s.ops[op].Ready?)
  {
    if s.ops[op].Ready? {
      FirstIsCoherent(s, s.ops[op].call, fault, true);
    }
  }

  lemma StartAlike(a: State, b: State, op: nat, call: Call, late: set<nat>)
    requires Alike(a, b, late) && op !in late
    ensures Alike(Next(a, Start(op, call)), Next(b, Start(op, call)), late)
  {
  }

  /** A step that leaves table and operations alone. */
  lemma QuietStepAlike(a: State, b: State, e: Event, late: set<nat>)
    requires Alike(a, b, late) && (e.Tick? || e.Replicate? || e.Drop?)
    ensures Alike(Next(a, e), Next(b, e), late)
  {
  }

  lemma StepAlike(a: State, b: State, e: Event, late: set<nat>)
    requires ReadCoherent(a) && ReadCoherent(b) && Alike(a, b, late) && !Concerns(e, late)
    requires AnswerArrives(e) && CacheWorks(e)
    ensures Alike(Next(a, e), Next(b, e), late)
  {
    match e
    case Start(op, call) => StartAlike(a, b, op, call, late);
    case Advance(op, fault, ok) =>
      if op in a.ops {
        AdvanceAlike(a, b, op, fault, late);
      }
    case _ => QuietStepAlike(a, b, e, late);
  }

  /** The simulation: for every calm run and every choice of deliveries to leave out of it. The two states may be wired
      with different caches, or none. */
  lemma {:induction false} RunsStayAlike(a0: State, b0: State, es: seq<Event>, late: set<nat>)
    requires Initial(a0) && Initial(b0) && !a0.cfg.hasReplica && !b0.cfg.hasReplica
    requires a0.rows == b0.rows && a0.clock == b0.clock && a0.cfg.changedOnly == b0.cfg.changedOnly
    requires CalmRun(a0, es) && CalmRun(b0, Without(es, late)) && OnlyDeliveries(es, late)
    ensures Alike(Exec(a0, es), Exec(b0, Without(es, late)), late)
  {
    if es != [] {
      var fs, e := es[..|es| - 1], es[|es| - 1];
      var gs := Without(fs, late);
      CalmPrefix(a0, es);
      if Concerns(e, late) {
        assert Without(es, late) == gs;
        RunsStayAlike(a0, b0, fs, late);
        DeliveryStepIsInvisible(Exec(a0, fs), Exec(b0, gs), e, late);
      } else {
        assert Without(es, late)[..|gs|] == gs && Without(es, late)[|gs|] == e;
        CalmPrefix(b0, Without(es, late));
        RunsStayAlike(a0, b0, fs, late);
        CalmRunsAreCoherent(a0, fs);
        CalmRunsAreCoherent(b0, gs);
        StepAlike(Exec(a0, fs), Exec(b0, gs), e, late);
      }
    }
  }

  /** A GetByID answered in both runs. */
  ghost predicate SameReads(s: State, t: State, late: set<nat>) {
    forall op | op !in late && op in s.ops && op in t.ops && s.ops[op].Done? && t.ops[op].Done? ::
      SameAnswer(s.ops[op].call, s.ops[op].reply, t.ops[op].reply)
  }

  /** Redelivery is invisible: duplicate, late and reordered deliveries anywhere in a calm run change neither the table,
      nor any write, nor the answer of any GetByID that the database did not refuse. */
  lemma {:induction false} RedeliveryIsInvisible(s0: State, es: seq<Event>, late: set<nat>)
    requires Initial(s0) && !s0.cfg.hasReplica
    requires CalmRun(s0, es) && CalmRun(s0, Without(es, late)) && OnlyDeliveries(es, late)
    ensures var s, t := Exec(s0, es), Exec(s0, Without(es, late)); SameWrites(s, t, late) && SameReads(s, t, late)
  {
    RunsStayAlike(s0, s0, es, late);
    AlikeReadsTheSame(Exec(s0, es), Exec(s0, Without(es, late)), late);
    WritesIgnoreReaders(s0, es, late);
  }

  /** Refinement of the plain table: in calm runs the service with a cache and the one wired without any serve alike. */
  lemma {:induction false} CacheIsInvisible(s0: State, es: seq<Event>)
    requires Initial(s0) && !s0.cfg.hasReplica
    requires var plain := s0.(cfg := s0.cfg.(hasCache := false)); CalmRun(s0, es) && CalmRun(plain, es)
    ensures var plain := s0.(cfg := s0.cfg.(hasCache := false));
            var s, t := Exec(s0, es), Exec(plain, es); SameWrites(s, t, {}) && SameReads(s, t, {})
  {
    var plain := s0.(cfg := s0.cfg.(hasCache := false));
    NothingLeftOut(es);
    RunsStayAlike(s0, plain, es, {});
    AlikeReadsTheSame(Exec(s0, es), Exec(plain, es), {});
    WritesIgnoreTheCache(s0, plain.cfg, es);
  }

  lemma AlikeReadsTheSame(s: State, t: State, late: set<nat>)
    requires Alike(s, t, late)
    ensures SameReads(s, t, late)
  {
  }
}
