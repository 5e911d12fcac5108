/** The answers that reads give, each tied to one instant of the call that gave it: what a failure tells is true in
    every run, and in calm runs whatever GetByID answers is. */
module AnsweredReads {
  import opened Options
  import opened Errors
  import opened Database
  import opened StoreMachine
  import opened Coherence
  import opened Scripts

  /** Event n of the run is a step of `op`, and at that instant `reply` told what the table held under `id`, or passed
      on that the database did not serve it. */
  ghost predicate ToldAt(s0: State, es: seq<Event>, n: nat, op: nat, id: string, reply: Reply)
    requires n < |es|
  {
    && es[n].Advance? && es[n].op == op
    && (if es[n].fault.Served? || !reply.Fail? then TellsTheTable(Exec(s0, es[..n]).rows, id, reply)
        else CodeOf(Some(reply.error)) == Some(DataAccess))
  }

  predicate Answered(op: Op) {
    op.Storing? || op.Done?
  }

  lemma OwnStepKeepsAnswer(s: State, op: nat, fault: Fault, ok: bool)
    requires op in s.ops && Answered(s.ops[op])
    ensures var next := AdvanceOp(s, op, fault, ok).ops[op]; Answered(next) && next.reply == s.ops[op].reply
  {
  }

  /** An answer once given stays. */
  lemma AnswersAreKept(s: State, e: Event, op: nat)
    requires op in s.ops && Answered(s.ops[op])
    ensures var t := Next(s, e);
            op in t.ops && Answered(t.ops[op]) && t.ops[op].reply == s.ops[op].reply && t.ops[op].call == s.ops[op].call
  {
    if e.Advance? && e.op in s.ops {
      AdvanceFrame(s, e.op, e.fault, e.cacheOk);
      if e.op == op {
        OwnStepKeepsAnswer(s, op, e.fault, e.cacheOk);
      }
    }
  }

  /** It is given by a step of its own operation. */
  lemma AnswersAreOwnSteps(s: State, e: Event, op: nat)
    requires op !in s.ops || !Answered(s.ops[op])
    requires op in Next(s, e).ops && Answered(Next(s, e).ops[op])
    ensures op in s.ops && e.Advance? && e.op == op && Next(s, e) == AdvanceOp(s, op, e.fault, e.cacheOk)
    ensures Next(s, e).ops[op].call == s.ops[op].call
  {
    if e.Advance? && e.op == op {
      AdvanceFrame(s, op, e.fault, e.cacheOk);
    } else {
      OthersStay(s, e, op);
    }
  }

  /** Whatever GetByID answers in a calm run told what the table held at one instant of the call itself. */
  lemma {:induction false} AnsweredReadsToldTheTable(s0: State, es: seq<Event>, op: nat) returns (n: nat)
    requires Initial(s0) && !s0.cfg.hasReplica && CalmRun(s0, es)
    requires var s := Exec(s0, es); op in s.ops && s.ops[op].call.GetByID? && Answered(s.ops[op])
    ensures n < |es| && ToldAt(s0, es, n, op, Exec(s0, es).ops[op].call.id, Exec(s0, es).ops[op].reply)
  {
    var front, e := es[..|es| - 1], es[|es| - 1];
    var s := Exec(s0, front);
    CalmPrefix(s0, es);
    if op in s.ops && Answered(s.ops[op]) {
      AnswersAreKept(s, e, op);
      n := AnsweredReadsToldTheTable(s0, front, op);
      assert front[..n] == es[..n];
    } else {
      AnswersAreOwnSteps(s, e, op);
      NotBusy(s0, front, op);
      GetByIDAnswersAsTheTable(s0, front, op, e.fault);
      n := |es| - 1;
    }
  }

  /** A read evicts nothing. */
  lemma NotBusy(s0: State, es: seq<Event>, op: nat)
    requires Initial(s0) && CalmRun(s0, es)
    requires var s := Exec(s0, es); op in s.ops && s.ops[op].call.GetByID?
    ensures !Exec(s0, es).ops[op].Evicting?
  {
    CalmRunsAreCoherent(s0, es);
    assert OpCoherent(Exec(s0, es).rows, Exec(s0, es).ops[op]);
  }

  /** What a read of the database may say of the table that it found. */
  ghost predicate Truthful(rows: Table, id: string, fault: Fault, reply: Reply) {
    match reply
    case Fail(e) =>
      CodeOf(Some(e)) == Some(if fault.Served? then NotFound else DataAccess) && (fault.Served? ==> id !in rows)
    case _ => fault.Served? && id in rows
  }

  predicate Reads(call: Call) {
    call.GetByID? || call.ProcessUserCreated?
  }

  lemma ReadIsTruthful(s: State, call: Call, fault: Fault)
    ensures var next := ReadStep(s, call, fault); Answered(next) && Truthful(s.rows, IdOf(call), fault, next.reply)
  {
    match GetUserByIDSpec(s.rows, IdOf(call), fault)
    case Row(_) =>
    case Failed(e) =>
      var context := if call.GetByID? then "usecase.GetByID" else "usecase.ProcessUserCreated";
      WrappingIsTransparent([context], e);
      assert WrapAll([context], e) == Wrapped(context, e);
  }

  lemma FirstStepReads(s: State, call: Call, fault: Fault, ok: bool)
    requires Reads(call)
    ensures var next := FirstStep(s, call, fault, ok).next;
            (call.GetByID? && (next.Missed? || (next.Done? && next.reply.Found?))) ||
            (call.ProcessUserCreated? && next == ReadStep(s, call, fault))
  {
  }

  /** One step of a read that has not answered yet. */
  lemma OwnStepIsTruthful(s: State, op: nat, fault: Fault, ok: bool)
    requires op in s.ops && Reads(s.ops[op].call) && (s.ops[op].Ready? || s.ops[op].Missed?)
    ensures var o, next := s.ops[op], AdvanceOp(s, op, fault, ok).ops[op];
            && (next.Missed? || Answered(next))
            && (Answered(next) && (o.call.ProcessUserCreated? || next.reply.Fail?) ==>
                Truthful(s.rows, IdOf(o.call), fault, next.reply))
  {
    ReadIsTruthful(s, s.ops[op].call, fault);
    if s.ops[op].Ready? {
      FirstStepReads(s, s.ops[op].call, fault, ok);
    }
  }

  /** In every run, whatever fails and overlaps: when ProcessUserCreated answers, and when GetByID fails, the answer
      tells what one read of its own found, the row, no row, or no database. */
  lemma {:induction false} ReadsAreTruthful(s0: State, es: seq<Event>, op: nat) returns (n: nat)
    requires s0.ops == map[] && op in Exec(s0, es).ops && Reads(Exec(s0, es).ops[op].call)
    ensures var o := Exec(s0, es).ops[op];
            && (o.Ready? || o.Missed? || Answered(o))
            && (Answered(o) && (o.call.ProcessUserCreated? || o.reply.Fail?) ==>
                && n < |es| && es[n].Advance? && es[n].op == op
                && Truthful(Exec(s0, es[..n]).rows, IdOf(o.call), es[n].fault, o.reply))
  {
    var front, e := es[..|es| - 1], es[|es| - 1];
    var s := Exec(s0, front);
    n := |es| - 1;
    if e.Advance? && e.op in s.ops {
      AdvanceFrame(s, e.op, e.fault, e.cacheOk);
    }
    if op in s.ops {
      n := ReadsAreTruthful(s0, front, op);
      assert n < |front| ==> front[..n] == es[..n];
      if Answered(s.ops[op]) {
        AnswersAreKept(s, e, op);
      } else if e.Advance? && e.op == op {
        OwnStepIsTruthful(s, op, e.fault, e.cacheOk);
        n := |es| - 1;
      } else {
        OthersStay(s, e, op);
      }
    } else {
      OthersStay(s, e, op);
    }
  }
}
