/** What a reader may be served, over every interleaving and with every cache call free to fail: always a version the
    row really had, and one not older than the key's life plus the delays of the run. */
module Staleness {
  import opened Domain
  import opened Database
  import opened StoreMachine

  /** What the database held at one instant of a run. */
  datatype Instant = Instant(clock: nat, rows: Table)

  function Now(s: State): Instant {
    Instant(s.clock, s.rows)
  }

  /** The database's past: one instant per prefix of the run. */
  function Past(s0: State, es: seq<Event>): (past: seq<Instant>)
    ensures |past| == |es| + 1
    ensures past[|es|] == Now(Exec(s0, es))
  {
    (if es == [] then [] else Past(s0, es[..|es| - 1])) + [Now(Exec(s0, es))]
  }

  lemma {:induction false} PastIsTheRun(s0: State, es: seq<Event>, n: nat)
    requires n <= |es|
    ensures Past(s0, es)[n] == Now(Exec(s0, es[..n]))
  {
    if n == |es| {
      assert es[..n] == es;
    } else {
      PastIsTheRun(s0, es[..|es| - 1], n);
      assert es[..|es| - 1][..n] == es[..n];
    }
  }

  ghost predicate HeldAt(instant: Instant, id: string, pub: Public, from: int) {
    instant.clock >= from && id in instant.rows && Pub(instant.rows[id]) == pub
  }

  /** `user` equals, on the public columns, one single version that row `id` had at `from` or later. */
  ghost predicate Held(past: seq<Instant>, id: string, user: User, from: int) {
    exists n | 0 <= n < |past| :: HeldAt(past[n], id, Pub(user), from)
  }

  /** The delays of a state: database steps at most `gap` ago await their cache step, and writes sent to the
      replica at most `lag` ago are not applied yet. */
  ghost predicate Prompt(s: State, gap: nat, lag: nat) {
    && (forall op | op in s.ops && s.ops[op].Storing? :: s.clock <= s.ops[op].since + gap)
    && (forall i | 0 <= i < |s.stream| :: s.clock <= s.stream[i].at + lag)
  }

  ghost predicate PromptRun(s0: State, es: seq<Event>, gap: nat, lag: nat) {
    forall n | 0 <= n <= |es| :: Prompt(Exec(s0, es[..n]), gap, lag)
  }

  /** How long after its last instant in the table a version can still be served. */
  function Window(cfg: Config, gap: nat, lag: nat): nat {
    USER_CACHE_TTL + gap + if cfg.hasReplica then lag else 0
  }

  ghost predicate EntryBacked(past: seq<Instant>, id: string, entry: Entry, delay: nat) {
    Held(past, id, entry.user, entry.expires - USER_CACHE_TTL - delay)
  }

  ghost predicate WriteBacked(past: seq<Instant>, w: CacheWrite, gap: nat) {
    w.SetKey? ==> Held(past, w.user.id, w.user, w.at - gap)
  }

  ghost predicate OpBacked(past: seq<Instant>, op: Op, clock: nat, window: nat) {
    match op
    case Storing(call, u, since, reply) =>
      since <= clock && u.id == IdOf(call) && Held(past, u.id, u, since) && (reply.Found? ==> reply.user == u)
    case Done(call, Found(u), at) => at <= clock && Held(past, IdOf(call), u, at - window + 1)
    case Evicting(_, _, reply) => !reply.Found?
    case _ => true
  }

  ghost predicate CacheBacked(past: seq<Instant>, cache: Cache, delay: nat) {
    forall id | id in cache :: EntryBacked(past, id, cache[id], delay)
  }

  ghost predicate StreamBacked(past: seq<Instant>, stream: seq<CacheWrite>, gap: nat) {
    forall w | w in stream :: WriteBacked(past, w, gap)
  }

  ghost predicate OpsBacked(past: seq<Instant>, s: State, window: nat) {
    forall op | op in s.ops :: OpBacked(past, s.ops[op], s.clock, window)
  }

  /** Every record anywhere (cached, replicated, in transit, pending, returned) is backed by a real version. */
  ghost predicate Backed(past: seq<Instant>, s: State, gap: nat, lag: nat) {
    && CacheBacked(past, s.cache, gap)
    && CacheBacked(past, s.replica, gap + lag)
    && StreamBacked(past, s.stream, gap)
    && OpsBacked(past, s, Window(s.cfg, gap, lag))
    && (!s.cfg.hasReplica ==> s.stream == [])
  }

  lemma HeldLasts(past: seq<Instant>, i: Instant, id: string, user: User, from: int, later: int)
    requires Held(past, id, user, from) && later <= from
    ensures Held(past, id, user, later)
    ensures Held(past + [i], id, user, later)
  {
    var n :| 0 <= n < |past| && HeldAt(past[n], id, Pub(user), from);
    assert HeldAt(past[n], id, Pub(user), later);
    assert (past + [i])[n] == past[n];
  }

  lemma HeldNow(past: seq<Instant>, i: Instant, id: string, user: User)
    requires id in i.rows && Pub(i.rows[id]) == Pub(user)
    ensures Held(past + [i], id, user, i.clock)
  {
    assert (past + [i])[|past|] == i;
    assert HeldAt((past + [i])[|past|], id, Pub(user), i.clock);
  }

  lemma OpBackingLasts(past: seq<Instant>, i: Instant, op: Op, clock: nat, window: nat)
    requires OpBacked(past, op, clock, window) && clock <= i.clock
    ensures OpBacked(past + [i], op, i.clock, window)
  {
    match op
    case Storing(_, u, since, _) => HeldLasts(past, i, u.id, u, since, since);
    case Done(call, Found(u), at) => HeldLasts(past, i, IdOf(call), u, at - window + 1, at - window + 1);
    case _ =>
  }

  lemma CacheBackingLasts(past: seq<Instant>, i: Instant, cache: Cache, delay: nat)
    requires CacheBacked(past, cache, delay)
    ensures CacheBacked(past + [i], cache, delay)
  {
    forall id | id in cache ensures EntryBacked(past + [i], id, cache[id], delay) {
      assert EntryBacked(past, id, cache[id], delay);
      HeldLasts(past, i, id, cache[id].user, cache[id].expires - USER_CACHE_TTL - delay,
          cache[id].expires - USER_CACHE_TTL - delay);
    }
  }

  /** Nothing already backed loses its backing as time and table move on. */
  lemma BackingLasts(past: seq<Instant>, i: Instant, s: State, gap: nat, lag: nat)
    requires Backed(past, s, gap, lag) && s.clock <= i.clock
    ensures Backed(past + [i], s.(clock := i.clock, rows := i.rows), gap, lag)
  {
    CacheBackingLasts(past, i, s.cache, gap);
    CacheBackingLasts(past, i, s.replica, gap + lag);
    forall w | w in s.stream ensures WriteBacked(past + [i], w, gap) {
      assert WriteBacked(past, w, gap);
      if w.SetKey? {
        HeldLasts(past, i, w.user.id, w.user, w.at - gap, w.at - gap);
      }
    }
    var window := Window(s.cfg, gap, lag);
    forall op | op in s.ops ensures OpBacked(past + [i], s.ops[op], i.clock, window) {
      assert OpBacked(past, s.ops[op], s.clock, window);
      OpBackingLasts(past, i, s.ops[op], s.clock, window);
    }
  }

  lemma PutKeepsBacked(past: seq<Instant>, s: State, op: nat, next: Op, gap: nat, lag: nat)
    requires Backed(past, s, gap, lag) && OpBacked(past, next, s.clock, Window(s.cfg, gap, lag))
    ensures Backed(past, Put(s, op, next), gap, lag)
  {
    var t, window := Put(s, op, next), Window(s.cfg, gap, lag);
    forall o | o in t.ops ensures OpBacked(past, t.ops[o], t.clock, window) {
      if o != op {
        assert OpBacked(past, s.ops[o], s.clock, window);
      }
    }
  }

  /** The cache write of a pending record that is at most `gap` old. */
  lemma SetKeepsBacked(past: seq<Instant>, s: State, user: User, since: int, ok: bool, gap: nat, lag: nat)
    requires Backed(past, s, gap, lag) && Held(past, user.id, user, since) && s.clock <= since + gap
    ensures Backed(past, SetUser(s, user, ok), gap, lag)
  {
    HeldLasts(past, Now(s), user.id, user, since, s.clock - gap);
    var t := SetUser(s, user, ok);
    forall id | id in t.cache ensures EntryBacked(past, id, t.cache[id], gap) {
      if id in s.cache {
        assert EntryBacked(past, id, s.cache[id], gap);
      }
    }
    forall op | op in t.ops ensures OpBacked(past, t.ops[op], t.clock, Window(s.cfg, gap, lag)) {
      assert OpBacked(past, s.ops[op], s.clock, Window(s.cfg, gap, lag));
    }
  }

  lemma DeleteKeepsBacked(past: seq<Instant>, s: State, id: string, ok: bool, gap: nat, lag: nat)
    requires Backed(past, s, gap, lag)
    ensures Backed(past, DeleteKey(s, id, ok), gap, lag)
  {
    var t := DeleteKey(s, id, ok);
    forall k | k in t.cache ensures EntryBacked(past, k, t.cache[k], gap) {
      assert EntryBacked(past, k, s.cache[k], gap);
    }
    forall op | op in t.ops ensures OpBacked(past, t.ops[op], t.clock, Window(s.cfg, gap, lag)) {
      assert OpBacked(past, s.ops[op], s.clock, Window(s.cfg, gap, lag));
    }
  }

  lemma ReplicateKeepsBacked(past: seq<Instant>, s: State, gap: nat, lag: nat)
    requires Backed(past, s, gap, lag) && Prompt(s, gap, lag)
    ensures Backed(past, ReplicateStep(s), gap, lag)
  {
    if s.stream != [] {
      var w, t := s.stream[0], ReplicateStep(s);
      assert WriteBacked(past, w, gap);
      if w.SetKey? {
        HeldLasts(past, Now(s), w.user.id, w.user, w.at - gap, s.clock - (gap + lag));
      }
      AppliedBacked(past, s.replica, w, s.clock, gap + lag);
      assert forall op | op in t.ops :: OpBacked(past, s.ops[op], s.clock, Window(s.cfg, gap, lag));
      assert StreamBacked(past, t.stream, gap);
    }
  }

  lemma AppliedBacked(past: seq<Instant>, replica: Cache, w: CacheWrite, clock: nat, delay: nat)
    requires CacheBacked(past, replica, delay)
    requires w.SetKey? ==> Held(past, w.user.id, w.user, clock - delay)
    ensures CacheBacked(past, Applied(replica, w, clock), delay)
  {
    var after := Applied(replica, w, clock);
    forall k | k in after ensures EntryBacked(past, k, after[k], delay) {
      if k in replica {
        assert EntryBacked(past, k, replica[k], delay);
      }
    }
  }

  /** A cache hit is backed for as long as the key lives. */
  lemma HitBacked(past: seq<Instant>, s: State, id: string, ok: bool, gap: nat, lag: nat)
    requires Backed(past, s, gap, lag) && Lookup(ReadCache(s), id, s.clock, ok).Some?
    ensures Held(past, id, Lookup(ReadCache(s), id, s.clock, ok).value, s.clock - Window(s.cfg, gap, lag) + 1)
  {
    var entry := ReadCache(s)[id];
    var delay := if s.cfg.hasReplica then gap + lag else gap;
    assert EntryBacked(past, id, entry, delay);
    HeldLasts(past, Now(s), id, entry.user, entry.expires - USER_CACHE_TTL - delay,
        s.clock - Window(s.cfg, gap, lag) + 1);
  }

  lemma ReadBacked(past: seq<Instant>, s: State, call: Call, fault: Fault, window: nat)
    requires Keyed(s.rows)
    ensures OpBacked(past + [Now(s)], ReadStep(s, call, fault), s.clock, window)
  {
    if fault.Served? && IdOf(call) in s.rows {
      HeldNow(past, Now(s), IdOf(call), s.rows[IdOf(call)]);
    }
  }

  lemma WriteBackedByRow(past: seq<Instant>, s: State, call: Call, user: User, answer: Answer, context: string,
      window: nat)
    requires user.id == IdOf(call)
    requires answer.err.None? ==> user.id in answer.rows && Pub(answer.rows[user.id]) == Pub(user)
    ensures var m := WriteStep(s, call, answer, context, Storing(call, user, s.clock, Ok));
            OpBacked(past + [Instant(s.clock, m.rows)], m.next, s.clock, window)
  {
    if answer.err.None? {
      HeldNow(past, Instant(s.clock, answer.rows), user.id, user);
    }
  }

  lemma FirstBacked(past: seq<Instant>, s: State, call: Call, fault: Fault, ok: bool, gap: nat, lag: nat)
    requires Backed(past, s, gap, lag) && Keyed(s.rows)
    ensures var m := FirstStep(s, call, fault, ok);
            OpBacked(past + [Instant(s.clock, m.rows)], m.next, s.clock, Window(s.cfg, gap, lag))
  {
    var window := Window(s.cfg, gap, lag);
    match call
    case GetByID(id) =>
      if Lookup(ReadCache(s), id, s.clock, ok).Some? {
        HitBacked(past, s, id, ok, gap, lag);
        HeldLasts(past, Now(s), id, Lookup(ReadCache(s), id, s.clock, ok).value, s.clock - window + 1,
            s.clock - window + 1);
      }
    case ProcessUserCreated(_) => ReadBacked(past, s, call, fault, window);
    case Add(u) => WriteBackedByRow(past, s, call, u, AddUserSpec(s.rows, u, s.clock, fault), "usecase.Add", window);
    case Update(u) =>
      WriteBackedByRow(past, s, call, u, UpdateUserSpec(s.rows, u, s.clock, fault, s.cfg.changedOnly), "usecase.Update",
          window);
    case Delete(_) =>
    case ProcessUserDeleted(_) =>
  }

  lemma AdvanceKeepsBacked(past: seq<Instant>, s: State, op: nat, fault: Fault, ok: bool, gap: nat, lag: nat)
    requires Backed(past, s, gap, lag) && Prompt(s, gap, lag) && Keyed(s.rows) && op in s.ops
    ensures var t := AdvanceOp(s, op, fault, ok); Backed(past + [Now(t)], t, gap, lag)
  {
    var window := Window(s.cfg, gap, lag);
    assert OpBacked(past, s.ops[op], s.clock, window);
    match s.ops[op]
    case Ready(call) =>
      var m := FirstStep(s, call, fault, ok);
      FirstBacked(past, s, call, fault, ok, gap, lag);
      BackingLasts(past, Instant(s.clock, m.rows), s, gap, lag);
      PutKeepsBacked(past + [Instant(s.clock, m.rows)], s.(rows := m.rows), op, m.next, gap, lag);
    case Missed(call) =>
      ReadBacked(past, s, call, fault, window);
      BackingLasts(past, Now(s), s, gap, lag);
      PutKeepsBacked(past + [Now(s)], s, op, ReadStep(s, call, fault), gap, lag);
    case Storing(call, u, since, reply) => StoreKeepsBacked(past, s, op, ok, gap, lag);
    case Evicting(call, _, reply) =>
      BackingLasts(past, Now(s), s, gap, lag);
      DeleteKeepsBacked(past + [Now(s)], s, IdOf(call), ok, gap, lag);
      PutKeepsBacked(past + [Now(s)], DeleteKey(s, IdOf(call), ok), op, Done(call, reply, s.clock), gap, lag);
    case Done(_, _, _) => BackingLasts(past, Now(s), s, gap, lag);
  }

  lemma StoreKeepsBacked(past: seq<Instant>, s: State, op: nat, ok: bool, gap: nat, lag: nat)
    requires Backed(past, s, gap, lag) && Prompt(s, gap, lag) && op in s.ops && s.ops[op].Storing?
    ensures var Storing(call, u, _, reply) := s.ops[op];
            Backed(past + [Now(s)], Put(SetUser(s, u, ok), op, Done(call, reply, s.clock)), gap, lag)
  {
    var Storing(call, u, since, reply) := s.ops[op];
    var now := past + [Now(s)];
    BackingLasts(past, Now(s), s, gap, lag);
    assert OpBacked(now, s.ops[op], s.clock, Window(s.cfg, gap, lag));
    SetKeepsBacked(now, s, u, since, ok, gap, lag);
    if reply.Found? {
      HeldLasts(now, Now(s), u.id, u, since, s.clock - Window(s.cfg, gap, lag) + 1);
    }
    PutKeepsBacked(now, SetUser(s, u, ok), op, Done(call, reply, s.clock), gap, lag);
  }

  lemma StepKeepsBacked(past: seq<Instant>, s: State, e: Event, gap: nat, lag: nat)
    requires Backed(past, s, gap, lag) && Prompt(s, gap, lag) && Keyed(s.rows)
    ensures var t := Next(s, e); Backed(past + [Now(t)], t, gap, lag) && t.cfg == s.cfg
  {
    match e
    case Start(op, call) =>
      BackingLasts(past, Now(s), s, gap, lag);
      PutKeepsBacked(past + [Now(s)], s, op, Ready(call), gap, lag);
    case Tick(d) => BackingLasts(past, Instant(s.clock + d, s.rows), s, gap, lag);
    case Replicate =>
      BackingLasts(past, Now(s), s, gap, lag);
      ReplicateKeepsBacked(past + [Now(s)], s, gap, lag);
    case Drop(id) =>
      BackingLasts(past, Now(s), s, gap, lag);
      DeleteKeepsBacked(past + [Now(s)], s, id, true, gap, lag);
    case Advance(op, fault, ok) =>
      if op in s.ops {
        AdvanceKeepsBacked(past, s, op, fault, ok, gap, lag);
      } else {
        BackingLasts(past, Now(s), s, gap, lag);
      }
  }

  lemma PromptPrefix(s0: State, es: seq<Event>, gap: nat, lag: nat)
    requires es != [] && PromptRun(s0, es, gap, lag)
    ensures var fs := es[..|es| - 1]; PromptRun(s0, fs, gap, lag) && Prompt(Exec(s0, fs), gap, lag)
  {
    var fs := es[..|es| - 1];
    forall n | 0 <= n <= |fs| ensures Prompt(Exec(s0, fs[..n]), gap, lag) {
      assert fs[..n] == es[..n];
    }
  }

  lemma {:induction false} RunKeepsBacked(s0: State, es: seq<Event>, gap: nat, lag: nat)
    requires Initial(s0) && PromptRun(s0, es, gap, lag)
    ensures Backed(Past(s0, es), Exec(s0, es), gap, lag) && Exec(s0, es).cfg == s0.cfg
  {
    if es != [] {
      var fs := es[..|es| - 1];
      PromptPrefix(s0, es, gap, lag);
      RunKeepsBacked(s0, fs, gap, lag);
      RunKeepsTableValid(s0, fs);
      var past, s := Past(s0, fs), Exec(s0, fs);
      StepKeepsBacked(past, s, es[|es| - 1], gap, lag);
    }
  }

  /** Staleness bound. Whatever GetByID returned at time `at` is, on the public columns, what the row held at some
      instant less than the window earlier. */
  lemma {:induction false} ServedWithinWindow(s0: State, es: seq<Event>, op: nat, gap: nat, lag: nat)
    requires Initial(s0) && PromptRun(s0, es, gap, lag)
    requires var s := Exec(s0, es); op in s.ops && s.ops[op].Done? && s.ops[op].reply.Found?
    ensures var done := Exec(s0, es).ops[op];
            Held(Past(s0, es), IdOf(done.call), done.reply.user, done.at - Window(s0.cfg, gap, lag) + 1)
  {
    RunKeepsBacked(s0, es, gap, lag);
    assert OpBacked(Past(s0, es), Exec(s0, es).ops[op], Exec(s0, es).clock, Window(s0.cfg, gap, lag));
  }

  /** A user deleted and not re-added is no longer served once the window has passed. */
  lemma {:induction false} DeletedIsForgotten(s0: State, es: seq<Event>, op: nat, gap: nat, lag: nat, gone: nat)
    requires Initial(s0) && PromptRun(s0, es, gap, lag)
    requires var s := Exec(s0, es); op in s.ops && s.ops[op].Done? && s.ops[op].at >= gone + Window(s0.cfg, gap, lag)
    requires var id := IdOf(Exec(s0, es).ops[op].call);
             forall n | 0 <= n <= |es| && Past(s0, es)[n].clock >= gone :: id !in Past(s0, es)[n].rows
    ensures !Exec(s0, es).ops[op].reply.Found?
  {
    if Exec(s0, es).ops[op].reply.Found? {
      ServedWithinWindow(s0, es, op, gap, lag);
    }
  }

  lemma {:induction false} ClockNeverGoesBack(s0: State, es: seq<Event>, n: nat)
    requires n <= |es|
    ensures Exec(s0, es[..n]).clock <= Exec(s0, es).clock
  {
    if n == |es| {
      assert es[..n] == es;
    } else {
      ClockNeverGoesBack(s0, es[..|es| - 1], n);
      assert es[..|es| - 1][..n] == es[..n];
      StepMovesClockForward(Exec(s0, es[..|es| - 1]), es[|es| - 1]);
    }
  }

  lemma StepMovesClockForward(s: State, e: Event)
    ensures s.clock <= Next(s, e).clock
  {
  }

  /** Some version of row `id` had exactly these public columns. */
  ghost predicate WasRow(past: seq<Instant>, id: string, user: User) {
    exists n | 0 <= n < |past| :: id in past[n].rows && Pub(past[n].rows[id]) == Pub(user)
  }

  lemma HeldWasRow(past: seq<Instant>, id: string, user: User, from: int)
    requires Held(past, id, user, from)
    ensures WasRow(past, id, user)
  {
    var n :| 0 <= n < |past| && HeldAt(past[n], id, Pub(user), from);
    assert id in past[n].rows && Pub(past[n].rows[id]) == Pub(user);
  }

  /** Historical validity, for every run whatever its delays: a record that is cached, replicated, pending or was
      returned is one version the row really had, never a mix of two. */
  lemma {:induction false} EveryRecordWasARow(s0: State, es: seq<Event>)
    requires Initial(s0)
    ensures var s, past := Exec(s0, es), Past(s0, es);
            && (forall id | id in s.cache :: WasRow(past, id, s.cache[id].user))
            && (forall id | id in s.replica :: WasRow(past, id, s.replica[id].user))
            && (forall op | op in s.ops && s.ops[op].Storing? :: WasRow(past, IdOf(s.ops[op].call), s.ops[op].user))
            && (forall op | op in s.ops && s.ops[op].Done? && s.ops[op].reply.Found? ::
                WasRow(past, IdOf(s.ops[op].call), s.ops[op].reply.user))
  {
    var s, past := Exec(s0, es), Past(s0, es);
    var c := s.clock;
    forall n | 0 <= n <= |es| ensures Prompt(Exec(s0, es[..n]), c, c) {
      ClockNeverGoesBack(s0, es, n);
    }
    RunKeepsBacked(s0, es, c, c);
    RecordsAreRows(past, s, c, c);
  }

  lemma RecordsAreRows(past: seq<Instant>, s: State, gap: nat, lag: nat)
    requires Backed(past, s, gap, lag)
    ensures forall id | id in s.cache :: WasRow(past, id, s.cache[id].user)
    ensures forall id | id in s.replica :: WasRow(past, id, s.replica[id].user)
    ensures forall op | op in s.ops && s.ops[op].Storing? :: WasRow(past, IdOf(s.ops[op].call), s.ops[op].user)
    ensures forall op | op in s.ops && s.ops[op].Done? && s.ops[op].reply.Found? ::
        WasRow(past, IdOf(s.ops[op].call), s.ops[op].reply.user)
  {
    forall id | id in s.cache ensures WasRow(past, id, s.cache[id].user) {
      assert EntryBacked(past, id, s.cache[id], gap);
      HeldWasRow(past, id, s.cache[id].user, s.cache[id].expires - USER_CACHE_TTL - gap);
    }
    forall id | id in s.replica ensures WasRow(past, id, s.replica[id].user) {
      assert EntryBacked(past, id, s.replica[id], gap + lag);
      HeldWasRow(past, id, s.replica[id].user, s.replica[id].expires - USER_CACHE_TTL - (gap + lag));
    }
    forall op | op in s.ops && s.ops[op].Storing? ensures WasRow(past, IdOf(s.ops[op].call), s.ops[op].user) {
      assert OpBacked(past, s.ops[op], s.clock, Window(s.cfg, gap, lag));
      HeldWasRow(past, s.ops[op].user.id, s.ops[op].user, s.ops[op].since);
    }
    forall op | op in s.ops && s.ops[op].Done? && s.ops[op].reply.Found?
        ensures WasRow(past, IdOf(s.ops[op].call), s.ops[op].reply.user) {
      var done := s.ops[op];
      assert OpBacked(past, done, s.clock, Window(s.cfg, gap, lag));
      HeldWasRow(past, IdOf(done.call), done.reply.user, done.at - Window(s.cfg, gap, lag) + 1);
    }
  }
}
