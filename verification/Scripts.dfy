/** What the database sees of a run. No cache, replica, read or delivery changes the table or any write: this holds in
    every run, whatever fails and however operations interleave. */
module Scripts {
  import opened Database
  import opened StoreMachine

  predicate IsWrite(call: Call) {
    call.Add? || call.Update? || call.Delete?
  }

  predicate Concerns(e: Event, late: set<nat>) {
    (e.Start? || e.Advance?) && e.op in late
  }

  /** The run without the events of the calls `late`. */
  function Without(es: seq<Event>, late: set<nat>): seq<Event> {
    if es == [] then []
    else
      var e := es[|es| - 1];
      Without(es[..|es| - 1], late) + if Concerns(e, late) then [] else [e]
  }

  /** The database's view: no cache, no replica, and none of the calls `late`. */
  function Script(es: seq<Event>, late: set<nat>): seq<Event> {
    if es == [] then [] else Script(es[..|es| - 1], late) + Line(es[|es| - 1], late)
  }

  function Line(e: Event, late: set<nat>): (line: seq<Event>)
    ensures |line| <= 1
  {
    if Concerns(e, late) || e.Replicate? || e.Drop? then []
    else if e.Advance? then [Advance(e.op, e.fault, false)]
    else [e]
  }

  function Play(s: State, line: seq<Event>): State {
    if line == [] then s else Next(s, line[0])
  }

  ghost predicate OnlyReaders(es: seq<Event>, late: set<nat>) {
    forall e | e in es && e.Start? && e.op in late :: !IsWrite(e.call)
  }

  ghost predicate SameUnlessRead(x: Op, y: Op) {
    x.call == y.call && (x == y || x.call.GetByID?)
  }

  ghost predicate SameOps(s: map<nat, Op>, t: map<nat, Op>, late: set<nat>) {
    && (forall op | op !in late :: (op in s <==> op in t) && (op in s ==> SameUnlessRead(s[op], t[op])))
    && (forall op | op in late && op in s :: !IsWrite(s[op].call))
  }

  /** Same table, same clock, the same calls, and every call but GetByID at the very same point with the same reply.
      `s` may have run, besides, the reads and deliveries `late`. */
  ghost predicate SameWrites(s: State, t: State, late: set<nat>) {
    s.rows == t.rows && s.clock == t.clock && s.cfg.changedOnly == t.cfg.changedOnly && SameOps(s.ops, t.ops, late)
  }

  lemma FirstFrame(s: State, call: Call, fault: Fault, ok: bool)
    ensures var m := FirstStep(s, call, fault, ok); m.next.call == call && (m.rows == s.rows || IsWrite(call))
  {
  }

  /** A step moves its own operation only, and the table only if it is a write's first step. */
  lemma AdvanceFrame(s: State, op: nat, fault: Fault, ok: bool)
    requires op in s.ops
    ensures var t := AdvanceOp(s, op, fault, ok);
            && op in t.ops && t.ops == s.ops[op := t.ops[op]] && t.ops[op].call == s.ops[op].call
            && t.clock == s.clock && t.cfg == s.cfg
            && (t.rows == s.rows || IsWrite(s.ops[op].call))
  {
    if s.ops[op].Ready? {
      FirstFrame(s, s.ops[op].call, fault, ok);
    } else if s.ops[op].Done? {
      assert s.ops == s.ops[op := s.ops[op]];
    }
  }

  /** A step changes the operation it advances, and nothing else about operations under way. */
  lemma OthersStay(s: State, e: Event, op: nat)
    requires op in Next(s, e).ops && (e.Advance? ==> e.op != op)
    ensures if op in s.ops then Next(s, e).ops[op] == s.ops[op] else Next(s, e).ops[op].Ready?
  {
    if e.Advance? && e.op in s.ops {
      AdvanceFrame(s, e.op, e.fault, e.cacheOk);
    }
  }

  /** Writes and deliveries do not look at the cache. */
  lemma FirstIgnoresCache(s: State, t: State, call: Call, fault: Fault, ok: bool, ok': bool)
    requires s.rows == t.rows && s.clock == t.clock && s.cfg.changedOnly == t.cfg.changedOnly && !call.GetByID?
    ensures FirstStep(s, call, fault, ok) == FirstStep(t, call, fault, ok')
  {
  }

  lemma AdvanceIgnoresCache(s: State, t: State, op: nat, fault: Fault, ok: bool, ok': bool)
    requires s.rows == t.rows && s.clock == t.clock && s.cfg.changedOnly == t.cfg.changedOnly
    requires op in s.ops && op in t.ops && s.ops[op] == t.ops[op] && !s.ops[op].call.GetByID?
    ensures var s', t' := AdvanceOp(s, op, fault, ok), AdvanceOp(t, op, fault, ok');
            s'.rows == t'.rows && op in s'.ops && op in t'.ops && s'.ops[op] == t'.ops[op]
  {
    if s.ops[op].Ready? {
      FirstIgnoresCache(s, t, s.ops[op].call, fault, ok, ok');
    }
  }

  lemma SameOpsMove(s: map<nat, Op>, t: map<nat, Op>, late: set<nat>, op: nat, x: Op, y: Op)
    requires SameOps(s, t, late) && (if op in late then !IsWrite(x.call) else SameUnlessRead(x, y))
    ensures SameOps(s[op := x], if op in late then t else t[op := y], late)
  {
  }

  lemma AdvanceKeepsWrites(s: State, t: State, op: nat, fault: Fault, ok: bool, ok': bool, late: set<nat>)
    requires SameWrites(s, t, late) && op in s.ops
    ensures SameWrites(AdvanceOp(s, op, fault, ok), if op in late then t else AdvanceOp(t, op, fault, ok'), late)
  {
    AdvanceFrame(s, op, fault, ok);
    var x := AdvanceOp(s, op, fault, ok).ops[op];
    if op in late {
      SameOpsMove(s.ops, t.ops, late, op, x, x);
    } else {
      assert SameUnlessRead(s.ops[op], t.ops[op]);
      AdvanceFrame(t, op, fault, ok');
      if !s.ops[op].call.GetByID? {
        AdvanceIgnoresCache(s, t, op, fault, ok, ok');
      }
      SameOpsMove(s.ops, t.ops, late, op, x, AdvanceOp(t, op, fault, ok').ops[op]);
    }
  }

  lemma StepKeepsWrites(s: State, t: State, e: Event, late: set<nat>)
    requires SameWrites(s, t, late) && (e.Start? && e.op in late ==> !IsWrite(e.call))
    ensures SameWrites(Next(s, e), Play(t, Line(e, late)), late)
  {
    match e
    case Start(op, call) =>
      if op !in s.ops {
        SameOpsMove(s.ops, t.ops, late, op, Ready(call), Ready(call));
      }
    case Advance(op, fault, ok) =>
      if op in s.ops {
        AdvanceKeepsWrites(s, t, op, fault, ok, false, late);
      }
    case Tick(_) =>
    case Replicate =>
    case Drop(_) =>
  }

  lemma PlayLine(s: State, es: seq<Event>, line: seq<Event>)
    requires |line| <= 1
    ensures Exec(s, es + line) == Play(Exec(s, es), line)
  {
    if line == [] {
      assert es + line == es;
    } else {
      assert line == [line[0]];
      ExecAppend(s, es, line[0]);
    }
  }

  /** In every run, calm or not, with any cache, replica, faults and interleaving: table and writes are those of the
      run's database script on a store with any other wiring. */
  lemma {:induction false} RunIsItsScript(a0: State, b0: State, es: seq<Event>, late: set<nat>)
    requires a0.ops == map[] && b0.ops == map[] && OnlyReaders(es, late)
    requires a0.rows == b0.rows && a0.clock == b0.clock && a0.cfg.changedOnly == b0.cfg.changedOnly
    ensures SameWrites(Exec(a0, es), Exec(b0, Script(es, late)), late)
  {
    if es != [] {
      var fs, e := es[..|es| - 1], es[|es| - 1];
      assert e in es && forall f | f in fs :: f in es;
      RunIsItsScript(a0, b0, fs, late);
      StepKeepsWrites(Exec(a0, fs), Exec(b0, Script(fs, late)), e, late);
      PlayLine(b0, Script(fs, late), Line(e, late));
    }
  }

  lemma {:induction false} ScriptOfWithout(es: seq<Event>, late: set<nat>)
    ensures Script(Without(es, late), late) == Script(es, late)
    ensures forall e | e in Without(es, late) :: e in es
  {
    if es != [] {
      var fs, e := es[..|es| - 1], es[|es| - 1];
      ScriptOfWithout(fs, late);
      assert e in es && forall f | f in fs :: f in es;
      if Concerns(e, late) {
        assert Without(es, late) == Without(fs, late);
      } else {
        assert Without(es, late) == Without(fs, late) + [e];
        assert (Without(fs, late) + [e])[..|Without(fs, late)|] == Without(fs, late);
      }
    }
  }

  lemma SameWritesMeet(s: State, t: State, u: State, late: set<nat>)
    requires SameWrites(s, u, late) && SameWrites(t, u, late)
    ensures SameWrites(s, t, late)
  {
    forall op | op !in late && op in s.ops ensures op in t.ops && SameUnlessRead(s.ops[op], t.ops[op]) {
      assert SameUnlessRead(s.ops[op], u.ops[op]) && SameUnlessRead(t.ops[op], u.ops[op]);
    }
  }

  /** Whatever happens, reads and deliveries change neither the table nor any write: leaving any of them out of any run
      gives the same table and the same Add, Update, Delete, user_created and user_deleted calls, step by step. */
  lemma {:induction false} WritesIgnoreReaders(s0: State, es: seq<Event>, late: set<nat>)
    requires s0.ops == map[] && OnlyReaders(es, late)
    ensures SameWrites(Exec(s0, es), Exec(s0, Without(es, late)), late)
  {
    ScriptOfWithout(es, late);
    RunIsItsScript(s0, s0, es, late);
    RunIsItsScript(s0, s0, Without(es, late), late);
    SameWritesMeet(Exec(s0, es), Exec(s0, Without(es, late)), Exec(s0, Script(es, late)), late);
  }

  /** Whatever happens, the wiring of cache and replica changes neither the table nor any write. */
  lemma {:induction false} WritesIgnoreTheCache(s0: State, cfg: Config, es: seq<Event>)
    requires s0.ops == map[] && cfg.changedOnly == s0.cfg.changedOnly
    ensures SameWrites(Exec(s0, es), Exec(s0.(cfg := cfg), es), {})
  {
    var t0 := s0.(cfg := cfg);
    RunIsItsScript(s0, s0, es, {});
    RunIsItsScript(t0, s0, es, {});
    SameWritesMeet(Exec(s0, es), Exec(t0, es), Exec(s0, Script(es, {})), {});
  }

  lemma {:induction false} NothingLeftOut(es: seq<Event>)
    ensures Without(es, {}) == es
  {
    if es != [] {
      NothingLeftOut(es[..|es| - 1]);
    }
  }
}
