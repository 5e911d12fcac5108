/** Reads from a replica in runs that are calm otherwise: the life of a key no longer matters. What a replica
    still shows is wrong only while an operation, or a write on its way to the replica, knows better, so a served
    record is at most the two delays old. */
module ReplicaFreshness {
  import opened Domain
  import opened Database
  import opened StoreMachine
  import opened Staleness
  import opened Coherence
  import Scripts

  /** The delays of a state: an operation's cache step follows its database step within `gap`, and the replica applies
      a write within `lag`. */
  ghost predicate Swift(s: State, gap: nat, lag: nat) {
    && (forall op | op in s.ops && Busy(s.ops[op]) :: s.clock <= s.ops[op].since + gap)
    && (forall i | 0 <= i < |s.stream| :: s.clock <= s.stream[i].at + lag)
  }

  ghost predicate SwiftRun(s0: State, es: seq<Event>, gap: nat, lag: nat) {
    forall n | 0 <= n <= |es| :: Swift(Exec(s0, es[..n]), gap, lag)
  }

  function KeyOf(w: CacheWrite): string {
    match w
    case SetKey(u, _) => u.id
    case DelKey(id, _) => id
  }

  /** A pending operation on `id` followed the last instant at which `u` was the row. */
  ghost predicate OpKnows(past: seq<Instant>, s: State, id: string, u: User) {
    exists o :: o in s.ops && Busy(s.ops[o]) && IdOf(s.ops[o].call) == id && Held(past, id, u, s.ops[o].since)
  }

  /** A write to `id`, from position `from` on, is on its way that followed it by `gap` at most. */
  ghost predicate StreamKnows(past: seq<Instant>, s: State, id: string, u: User, from: nat, gap: nat) {
    exists j :: from <= j < |s.stream| && KeyOf(s.stream[j]) == id && Held(past, id, u, s.stream[j].at - gap)
  }

  ghost predicate Known(past: seq<Instant>, s: State, id: string, u: User, from: nat, gap: nat) {
    RecordMatches(s.rows, id, u) || OpKnows(past, s, id, u) || StreamKnows(past, s, id, u, from, gap)
  }

  ghost predicate ReplicaKnown(past: seq<Instant>, s: State, gap: nat) {
    && (forall id | id in s.replica :: Known(past, s, id, s.replica[id].user, 0, gap))
    && (forall i | 0 <= i < |s.stream| && s.stream[i].SetKey? ::
          Known(past, s, s.stream[i].user.id, s.stream[i].user, i + 1, gap))
    && (!s.cfg.hasCache || !s.cfg.hasReplica ==> s.replica == map[] && s.stream == [])
  }

  /** How old a record may be when it is served. */
  function Age(cfg: Config, gap: nat, lag: nat): nat {
    if cfg.hasReplica then gap + lag else 0
  }

  ghost predicate ServedFresh(past: seq<Instant>, op: Op, clock: nat, age: nat) {
    op.Done? && op.reply.Found? ==> op.at <= clock && Held(past, IdOf(op.call), op.reply.user, op.at - age)
  }

  ghost predicate AllServedFresh(past: seq<Instant>, s: State, age: nat) {
    forall op | op in s.ops :: ServedFresh(past, s.ops[op], s.clock, age)
  }

  lemma MatchIsHeld(past: seq<Instant>, s: State, id: string, u: User)
    requires past != [] && past[|past| - 1] == Now(s) && RecordMatches(s.rows, id, u)
    ensures Held(past, id, u, s.clock)
  {
    assert HeldAt(past[|past| - 1], id, Pub(u), s.clock);
  }

  lemma KnownIsFresh(past: seq<Instant>, s: State, id: string, u: User, gap: nat, lag: nat)
    requires past != [] && past[|past| - 1] == Now(s)
    requires Known(past, s, id, u, 0, gap) && Swift(s, gap, lag)
    ensures Held(past, id, u, s.clock - gap - lag)
  {
    if RecordMatches(s.rows, id, u) {
      MatchIsHeld(past, s, id, u);
      HeldLasts(past, Now(s), id, u, s.clock, s.clock - gap - lag);
    } else if OpKnows(past, s, id, u) {
      var o :| o in s.ops && Busy(s.ops[o]) && IdOf(s.ops[o].call) == id && Held(past, id, u, s.ops[o].since);
      HeldLasts(past, Now(s), id, u, s.ops[o].since, s.clock - gap - lag);
    } else {
      var j :| 0 <= j < |s.stream| && KeyOf(s.stream[j]) == id && Held(past, id, u, s.stream[j].at - gap);
      HeldLasts(past, Now(s), id, u, s.stream[j].at - gap, s.clock - gap - lag);
    }
  }

  /** The row of `id` is the same, or an operation has just changed it and its cache step is to come. */
  ghost predicate RowGuarded(s: State, t: State, id: string) {
    || ((id in s.rows <==> id in t.rows) && (id in s.rows ==> t.rows[id] == s.rows[id]))
    || exists o :: o in t.ops && Busy(t.ops[o]) && IdOf(t.ops[o].call) == id && t.ops[o].since == s.clock
  }

  /** A pending operation is still pending, or has sent its write behind position `from`. */
  ghost predicate OpGuarded(s: State, t: State, o: nat, from: nat, gap: nat)
    requires o in s.ops && Busy(s.ops[o])
  {
    || (o in t.ops && t.ops[o] == s.ops[o])
    || exists j :: from <= j < |t.stream| && KeyOf(t.stream[j]) == IdOf(s.ops[o].call) &&
        t.stream[j].at - gap <= s.ops[o].since
  }

  /** What is known about a record stays known over a step that guards its row, its operations and its writes. */
  lemma KnownStays(past: seq<Instant>, s: State, t: State, id: string, u: User, from: nat, from': nat, gap: nat)
    requires past != [] && past[|past| - 1] == Now(s) && Known(past, s, id, u, from, gap)
    requires RowGuarded(s, t, id)
    requires forall o | o in s.ops && Busy(s.ops[o]) && IdOf(s.ops[o].call) == id :: OpGuarded(s, t, o, from', gap)
    requires from' <= |t.stream|
    requires forall j | from <= j < |s.stream| && KeyOf(s.stream[j]) == id :: s.stream[j] in t.stream[from'..]
    ensures Known(past + [Now(t)], t, id, u, from', gap)
  {
    var later := past + [Now(t)];
    if RecordMatches(s.rows, id, u) {
      MatchIsHeld(past, s, id, u);
      if !RecordMatches(t.rows, id, u) {
        var o :| o in t.ops && Busy(t.ops[o]) && IdOf(t.ops[o].call) == id && t.ops[o].since == s.clock;
        HeldLasts(past, Now(t), id, u, s.clock, s.clock);
        assert OpKnows(later, t, id, u);
      }
    } else if OpKnows(past, s, id, u) {
      var o :| o in s.ops && Busy(s.ops[o]) && IdOf(s.ops[o].call) == id && Held(past, id, u, s.ops[o].since);
      assert OpGuarded(s, t, o, from', gap);
      if o in t.ops && t.ops[o] == s.ops[o] {
        HeldLasts(past, Now(t), id, u, s.ops[o].since, s.ops[o].since);
        assert OpKnows(later, t, id, u);
      } else {
        var j :| from' <= j < |t.stream| && KeyOf(t.stream[j]) == IdOf(s.ops[o].call) &&
            t.stream[j].at - gap <= s.ops[o].since;
        HeldLasts(past, Now(t), id, u, s.ops[o].since, t.stream[j].at - gap);
        assert StreamKnows(later, t, id, u, from', gap);
      }
    } else {
      StreamStays(past, s, t, id, u, from, from', gap);
    }
  }

  lemma StreamStays(past: seq<Instant>, s: State, t: State, id: string, u: User, from: nat, from': nat, gap: nat)
    requires StreamKnows(past, s, id, u, from, gap) && from' <= |t.stream|
    requires forall j | from <= j < |s.stream| && KeyOf(s.stream[j]) == id :: s.stream[j] in t.stream[from'..]
    ensures StreamKnows(past + [Now(t)], t, id, u, from', gap)
  {
    var j :| from <= j < |s.stream| && KeyOf(s.stream[j]) == id && Held(past, id, u, s.stream[j].at - gap);
    HeldLasts(past, Now(t), id, u, s.stream[j].at - gap, s.stream[j].at - gap);
    var k :| 0 <= k < |t.stream[from'..]| && t.stream[from'..][k] == s.stream[j];
    assert t.stream[from' + k] == s.stream[j];
  }

  /** A step that appends nothing or one write to the stream and leaves the replica alone. */
  ghost predicate Extends(s: State, t: State) {
    && t.replica == s.replica && t.cfg == s.cfg
    && (t.stream == s.stream || (|t.stream| == |s.stream| + 1 && t.stream[..|s.stream|] == s.stream))
  }

  lemma ExtendingKeepsKnown(past: seq<Instant>, s: State, t: State, gap: nat)
    requires past != [] && past[|past| - 1] == Now(s) && ReplicaKnown(past, s, gap) && Extends(s, t)
    requires forall id :: RowGuarded(s, t, id)
    requires forall o | o in s.ops && Busy(s.ops[o]) ::
               (o in t.ops && t.ops[o] == s.ops[o]) || !s.cfg.hasCache || !s.cfg.hasReplica ||
                   OpGuarded(s, t, o, |s.stream|, gap)
    requires |t.stream| > |s.stream| && t.stream[|s.stream|].SetKey? ==>
               RecordMatches(t.rows, t.stream[|s.stream|].user.id, t.stream[|s.stream|].user)
    requires !s.cfg.hasCache || !s.cfg.hasReplica ==> t.stream == []
    ensures ReplicaKnown(past + [Now(t)], t, gap)
  {
    if s.cfg.hasCache && s.cfg.hasReplica {
      forall id | id in t.replica ensures Known(past + [Now(t)], t, id, t.replica[id].user, 0, gap) {
        EntryStays(past, s, t, id, s.replica[id].user, 0, gap);
      }
      forall i | 0 <= i < |t.stream| && t.stream[i].SetKey?
        ensures Known(past + [Now(t)], t, t.stream[i].user.id, t.stream[i].user, i + 1, gap)
      {
        if i < |s.stream| {
          assert t.stream[i] == t.stream[..|s.stream|][i];
          EntryStays(past, s, t, s.stream[i].user.id, s.stream[i].user, i + 1, gap);
        }
      }
    }
  }

  lemma EntryStays(past: seq<Instant>, s: State, t: State, id: string, u: User, from: nat, gap: nat)
    requires past != [] && past[|past| - 1] == Now(s) && Extends(s, t) && from <= |s.stream|
    requires RowGuarded(s, t, id) && Known(past, s, id, u, from, gap)
    requires forall o | o in s.ops && Busy(s.ops[o]) ::
               (o in t.ops && t.ops[o] == s.ops[o]) || OpGuarded(s, t, o, |s.stream|, gap)
    ensures Known(past + [Now(t)], t, id, u, from, gap)
  {
    forall j | from <= j < |s.stream| ensures s.stream[j] in t.stream[from..] {
      assert t.stream[from..][j - from] == t.stream[j] == t.stream[..|s.stream|][j];
    }
    KnownStays(past, s, t, id, u, from, from, gap);
  }

  /** The replica applies the oldest write. */
  lemma ReplicateKeepsKnown(past: seq<Instant>, s: State, gap: nat)
    requires past != [] && past[|past| - 1] == Now(s) && ReplicaKnown(past, s, gap)
    ensures ReplicaKnown(past + [Now(s)], ReplicateStep(s), gap)
  {
    var t := ReplicateStep(s);
    if s.stream == [] {
      ExtendingKeepsKnown(past, s, t, gap);
    } else {
      var w := s.stream[0];
      forall id | id in t.replica ensures Known(past + [Now(t)], t, id, t.replica[id].user, 0, gap) {
        if KeyOf(w) == id {
          ShiftKeepsKnown(past, s, id, w.user, 1, gap);
        } else {
          NotFirst(past, s, id, s.replica[id].user, gap);
          ShiftKeepsKnown(past, s, id, s.replica[id].user, 1, gap);
        }
      }
      forall i | 0 <= i < |t.stream| && t.stream[i].SetKey?
        ensures Known(past + [Now(t)], t, t.stream[i].user.id, t.stream[i].user, i + 1, gap)
      {
        assert t.stream[i] == s.stream[i + 1];
        ShiftKeepsKnown(past, s, s.stream[i + 1].user.id, s.stream[i + 1].user, i + 2, gap);
      }
    }
  }

  lemma NotFirst(past: seq<Instant>, s: State, id: string, u: User, gap: nat)
    requires s.stream != [] && KeyOf(s.stream[0]) != id && Known(past, s, id, u, 0, gap)
    ensures Known(past, s, id, u, 1, gap)
  {
  }

  lemma ShiftKeepsKnown(past: seq<Instant>, s: State, id: string, u: User, from: nat, gap: nat)
    requires past != [] && past[|past| - 1] == Now(s) && s.stream != [] && 1 <= from <= |s.stream|
    requires Known(past, s, id, u, from, gap)
    ensures Known(past + [Now(s)], ReplicateStep(s), id, u, from - 1, gap)
  {
    var t := ReplicateStep(s);
    forall j | from <= j < |s.stream| ensures s.stream[j] in t.stream[from - 1..] {
      assert t.stream[from - 1..][j - from] == s.stream[j];
    }
    KnownStays(past, s, t, id, u, from, from - 1, gap);
  }

  lemma PendingSinceNow(s: State, call: Call, fault: Fault, ok: bool)
    ensures var next := FirstStep(s, call, fault, ok).next; Busy(next) ==> next.since == s.clock
  {
  }

  lemma MoveKeepsKnown(past: seq<Instant>, s: State, op: nat, fault: Fault, gap: nat)
    requires past != [] && past[|past| - 1] == Now(s) && ReplicaKnown(past, s, gap) && Coherent(s)
    requires op in s.ops && (s.ops[op].Ready? || s.ops[op].Missed?) && !fault.Lost?
    ensures var t := AdvanceOp(s, op, fault, true); ReplicaKnown(past + [Now(t)], t, gap)
  {
    var t := AdvanceOp(s, op, fault, true);
    if s.ops[op].Ready? {
      var call := s.ops[op].call;
      FirstIsCoherent(s, call, fault, true);
      PendingSinceNow(s, call, fault, true);
      forall id ensures RowGuarded(s, t, id) {
        if id == IdOf(call) && t.rows != s.rows {
          assert op in t.ops && Busy(t.ops[op]) && t.ops[op].since == s.clock;
        }
      }
    }
    ExtendingKeepsKnown(past, s, t, gap);
  }

  /** What a cache step sends to the replica: the row's record or a removal, under its own id, at its own time. */
  lemma CacheStepSends(s: State, op: nat, fault: Fault)
    requires op in s.ops && Busy(s.ops[op]) && OpCoherent(s.rows, s.ops[op]) && s.cfg.hasCache && s.cfg.hasReplica
    ensures var stream, n := AdvanceOp(s, op, fault, true).stream, |s.stream|;
            && |stream| == n + 1 && stream[..n] == s.stream
            && KeyOf(stream[n]) == IdOf(s.ops[op].call) && stream[n].at == s.clock
            && (stream[n].SetKey? ==> RecordMatches(s.rows, stream[n].user.id, stream[n].user))
  {
  }

  /** It leaves table, replica and all other operations alone. */
  lemma CacheStepFrame(s: State, op: nat, fault: Fault)
    requires op in s.ops && Busy(s.ops[op])
    ensures var t := AdvanceOp(s, op, fault, true);
            && t.rows == s.rows && t.replica == s.replica && t.cfg == s.cfg
            && (!s.cfg.hasCache || !s.cfg.hasReplica ==> t.stream == s.stream)
            && (forall o | o in s.ops && o != op :: o in t.ops && t.ops[o] == s.ops[o])
  {
  }

  lemma CacheStepKeepsKnown(past: seq<Instant>, s: State, op: nat, fault: Fault, gap: nat, lag: nat)
    requires past != [] && past[|past| - 1] == Now(s) && ReplicaKnown(past, s, gap) && Coherent(s) && Swift(s, gap, lag)
    requires op in s.ops && Busy(s.ops[op])
    ensures var t := AdvanceOp(s, op, fault, true); ReplicaKnown(past + [Now(t)], t, gap)
  {
    var t := AdvanceOp(s, op, fault, true);
    assert OpCoherent(s.rows, s.ops[op]);
    CacheStepFrame(s, op, fault);
    if s.cfg.hasCache && s.cfg.hasReplica {
      CacheStepSends(s, op, fault);
      assert OpGuarded(s, t, op, |s.stream|, gap);
    }
    ExtendingKeepsKnown(past, s, t, gap);
  }

  lemma StepKeepsKnown(past: seq<Instant>, s: State, e: Event, gap: nat, lag: nat)
    requires past != [] && past[|past| - 1] == Now(s) && ReplicaKnown(past, s, gap)
    requires Coherent(s) && Calm(s, e) && Swift(s, gap, lag)
    ensures var t := Next(s, e); ReplicaKnown(past + [Now(t)], t, gap)
  {
    match e
    case Advance(op, fault, ok) =>
      if op !in s.ops || s.ops[op].Done? {
        ExtendingKeepsKnown(past, s, s, gap);
      } else if Busy(s.ops[op]) {
        CacheStepKeepsKnown(past, s, op, fault, gap, lag);
      } else {
        MoveKeepsKnown(past, s, op, fault, gap);
      }
    case Replicate => ReplicateKeepsKnown(past, s, gap);
    case _ => ExtendingKeepsKnown(past, s, Next(s, e), gap);
  }

  lemma ServedStays(past: seq<Instant>, i: Instant, op: Op, clock: nat, age: nat)
    requires ServedFresh(past, op, clock, age) && clock <= i.clock
    ensures ServedFresh(past + [i], op, i.clock, age)
  {
    if op.Done? && op.reply.Found? {
      HeldLasts(past, i, IdOf(op.call), op.reply.user, op.at - age, op.at - age);
    }
  }

  /** A first step that answers with a record is a cache hit. */
  lemma FirstAnswerIsHit(s: State, op: nat, fault: Fault)
    requires op in s.ops && s.ops[op].Ready?
    ensures var next := AdvanceOp(s, op, fault, true).ops[op];
            next.Done? && next.reply.Found? ==>
              && next.call.GetByID? && next.at == s.clock
              && next.call.id in ReadCache(s) && next.reply.user == ReadCache(s)[next.call.id].user
  {
  }

  /** A later step that answers with a record answers with the row. */
  lemma LaterAnswerIsRow(s: State, op: nat, fault: Fault)
    requires op in s.ops && !s.ops[op].Ready? && !s.ops[op].Done? && OpCoherent(s.rows, s.ops[op])
    ensures var next := AdvanceOp(s, op, fault, true).ops[op];
            next.Done? && next.reply.Found? ==>
                next.at == s.clock && RecordMatches(s.rows, IdOf(next.call), next.reply.user)
  {
  }

  /** The answer of a step is what the readable cache holds, or the row of that moment. */
  ghost predicate Answers(s: State, next: Op)
    requires next.Done? && next.reply.Found?
  {
    && next.at == s.clock
    && (RecordMatches(s.rows, IdOf(next.call), next.reply.user) || HitOf(s, IdOf(next.call), next.reply.user))
  }

  ghost predicate HitOf(s: State, id: string, u: User) {
    s.cfg.hasReplica && id in s.replica && u == s.replica[id].user
  }

  lemma StepAnswers(s: State, op: nat, fault: Fault)
    requires Coherent(s) && op in s.ops && !s.ops[op].Done?
    ensures var next := AdvanceOp(s, op, fault, true).ops[op]; next.Done? && next.reply.Found? ==> Answers(s, next)
  {
    if s.ops[op].Ready? {
      FirstAnswerIsHit(s, op, fault);
      HitIsTheRow(s, op);
    } else {
      assert OpCoherent(s.rows, s.ops[op]);
      LaterAnswerIsRow(s, op, fault);
    }
  }

  lemma AnswerIsFresh(past: seq<Instant>, s: State, next: Op, gap: nat, lag: nat)
    requires past != [] && past[|past| - 1] == Now(s) && ReplicaKnown(past, s, gap) && Swift(s, gap, lag)
    requires next.Done? && next.reply.Found? && Answers(s, next)
    ensures ServedFresh(past, next, s.clock, Age(s.cfg, gap, lag))
  {
    var id, u := IdOf(next.call), next.reply.user;
    if RecordMatches(s.rows, id, u) {
      MatchIsHeld(past, s, id, u);
      HeldLasts(past, Now(s), id, u, s.clock, s.clock - Age(s.cfg, gap, lag));
    } else {
      KnownIsFresh(past, s, id, u, gap, lag);
    }
  }

  lemma AdvanceServesFresh(past: seq<Instant>, s: State, op: nat, fault: Fault, gap: nat, lag: nat)
    requires past != [] && past[|past| - 1] == Now(s) && ReplicaKnown(past, s, gap) && Coherent(s) && Swift(s, gap, lag)
    requires op in s.ops && ServedFresh(past, s.ops[op], s.clock, Age(s.cfg, gap, lag))
    ensures ServedFresh(past, AdvanceOp(s, op, fault, true).ops[op], s.clock, Age(s.cfg, gap, lag))
  {
    var next := AdvanceOp(s, op, fault, true).ops[op];
    if !s.ops[op].Done? && next.Done? && next.reply.Found? {
      StepAnswers(s, op, fault);
      AnswerIsFresh(past, s, next, gap, lag);
    }
  }

  lemma StepServesFresh(past: seq<Instant>, s: State, e: Event, gap: nat, lag: nat)
    requires past != [] && past[|past| - 1] == Now(s) && ReplicaKnown(past, s, gap)
    requires Coherent(s) && Calm(s, e) && Swift(s, gap, lag) && AllServedFresh(past, s, Age(s.cfg, gap, lag))
    ensures var t := Next(s, e); AllServedFresh(past + [Now(t)], t, Age(s.cfg, gap, lag))
  {
    var t, age := Next(s, e), Age(s.cfg, gap, lag);
    StepMovesClockForward(s, e);
    forall o | o in t.ops ensures ServedFresh(past + [Now(t)], t.ops[o], t.clock, age) {
      if e.Advance? && o == e.op {
        AdvanceServesFresh(past, s, o, e.fault, gap, lag);
      } else {
        Scripts.OthersStay(s, e, o);
      }
      if o in s.ops {
        ServedStays(past, Now(t), t.ops[o], s.clock, age);
      }
    }
  }

  lemma SwiftPrefix(s0: State, es: seq<Event>, gap: nat, lag: nat)
    requires es != [] && SwiftRun(s0, es, gap, lag)
    ensures var fs := es[..|es| - 1]; SwiftRun(s0, fs, gap, lag) && Swift(Exec(s0, fs), gap, lag)
  {
    var fs := es[..|es| - 1];
    forall n | 0 <= n <= |fs| ensures Swift(Exec(s0, fs[..n]), gap, lag) {
      assert fs[..n] == es[..n];
    }
  }

  lemma {:induction false} CalmRunsAreKnown(s0: State, es: seq<Event>, gap: nat, lag: nat)
    requires Initial(s0) && CalmRun(s0, es) && SwiftRun(s0, es, gap, lag)
    ensures var past, s := Past(s0, es), Exec(s0, es);
            ReplicaKnown(past, s, gap) && AllServedFresh(past, s, Age(s0.cfg, gap, lag))
  {
    if es != [] {
      var fs, e := es[..|es| - 1], es[|es| - 1];
      CalmPrefix(s0, es);
      SwiftPrefix(s0, es, gap, lag);
      CalmRunsAreKnown(s0, fs, gap, lag);
      CalmRunsAreCoherent(s0, fs);
      StepKeepsKnown(Past(s0, fs), Exec(s0, fs), e, gap, lag);
      StepServesFresh(Past(s0, fs), Exec(s0, fs), e, gap, lag);
    }
  }

  /** In runs that are calm but for the replica, what GetByID returned was the row, on the public columns, within
      the two delays before; without a replica it was the row at that very moment. */
  lemma {:induction false} CalmReadsAreFresh(s0: State, es: seq<Event>, op: nat, gap: nat, lag: nat)
    requires Initial(s0) && CalmRun(s0, es) && SwiftRun(s0, es, gap, lag)
    requires var s := Exec(s0, es); op in s.ops && s.ops[op].Done? && s.ops[op].reply.Found?
    ensures var done := Exec(s0, es).ops[op];
            Held(Past(s0, es), IdOf(done.call), done.reply.user, done.at - if s0.cfg.hasReplica then gap + lag else 0)
  {
    CalmRunsAreKnown(s0, es, gap, lag);
    assert ServedFresh(Past(s0, es), Exec(s0, es).ops[op], Exec(s0, es).clock, Age(s0.cfg, gap, lag));
  }
}
