/** Runs that show where the service's guarantees stop: the staleness window is reached, and each of the calm setting's
    four restrictions (no overlap on one id, working cache calls, no lost answer, no replica) is needed. */
module Witnesses {
  import opened Domain
  import opened Database
  import opened StoreMachine
  import opened Staleness
  import opened Coherence

  ghost predicate IsRun(states: seq<State>, es: seq<Event>) {
    && |states| == |es| + 1
    && forall n | 0 <= n < |es| :: states[n + 1] == Next(states[n], es[n])
  }

  lemma {:induction false} RunReaches(states: seq<State>, es: seq<Event>, n: nat)
    requires IsRun(states, es) && n <= |es|
    ensures Exec(states[0], es[..n]) == states[n]
  {
    if n > 0 {
      RunReaches(states, es, n - 1);
      assert es[..n][..n - 1] == es[..n - 1];
    }
  }

  /** No operation is left to do, and a live entry under `id` differs from the table on the public columns. */
  ghost predicate QuietlyWrong(s: State, readable: Cache, id: string) {
    && (forall op | op in s.ops :: s.ops[op].Done?)
    && id in readable && s.clock < readable[id].expires
    && (id in s.rows ==> Pub(s.rows[id]) != Pub(readable[id].user))
  }

  /** The restrictions of the calm setting, run by run. */
  ghost predicate NeverOverlaps(s0: State, es: seq<Event>) {
    forall n | 0 <= n < |es| :: NoOverlap(Exec(s0, es[..n]), es[n])
  }

  ghost predicate CacheAlwaysWorks(es: seq<Event>) {
    forall e | e in es :: CacheWorks(e)
  }

  ghost predicate AnswersAlwaysArrive(es: seq<Event>) {
    forall e | e in es :: AnswerArrives(e)
  }

  /** A user_created delivery that overlaps an update: it re-reads before, and re-caches after. */
  function OverlappingDelivery(user: User): seq<Event> {
    [Start(0, ProcessUserCreated(user.id)), Advance(0, Served, true),
     Start(1, Update(user)), Advance(1, Served, true), Advance(1, Served, true),
     Advance(0, Served, true)]
  }

  /** One step of an operation, case by case. */
  lemma ReadTaken(s: State, op: nat, id: string)
    requires op in s.ops && id in s.rows
    requires s.ops[op] == Ready(ProcessUserCreated(id)) || s.ops[op] == Missed(GetByID(id))
    ensures var call := s.ops[op].call;
            Next(s, Advance(op, Served, true)) ==
                Put(s, op, Storing(call, s.rows[id], s.clock, if call.GetByID? then Found(s.rows[id]) else Ok))
  {
  }

  lemma UpdateTaken(s: State, op: nat, user: User)
    requires op in s.ops && s.ops[op] == Ready(Update(user))
    requires Keyed(s.rows) && user.id in s.rows && !TakenByOther(s.rows, user) && Pub(s.rows[user.id]) != Pub(user)
    ensures Next(s, Advance(op, Served, true))
         == Put(s.(rows := s.rows[user.id := Updated(s.rows[user.id], user, s.clock)]), op,
             Storing(Update(user), user, s.clock, Ok))
  {
  }

  lemma DeleteTaken(s: State, op: nat, id: string, fault: Fault)
    requires op in s.ops && s.ops[op] == Ready(Delete(id)) && id in s.rows && !fault.Refused?
    ensures var t := Next(s, Advance(op, fault, true));
            && t == Put(s.(rows := s.rows - {id}), op, t.ops[op])
            && (if fault.Served? then t.ops[op] == Evicting(Delete(id), s.clock, Ok) else t.ops[op].Done?)
  {
  }

  lemma StoreTaken(s: State, op: nat)
    requires op in s.ops && s.ops[op].Storing?
    ensures Next(s, Advance(op, Served, true)) ==
        Put(SetUser(s, s.ops[op].user, true), op, Done(s.ops[op].call, s.ops[op].reply, s.clock))
  {
  }

  lemma OverlappingDeliveryIsWrong(s0: State, user: User)
    requires Initial(s0) && s0.cfg.hasCache && user.id in s0.rows && !TakenByOther(s0.rows, user)
    requires Pub(s0.rows[user.id]) != Pub(user)
    ensures var s := Exec(s0, OverlappingDelivery(user)); QuietlyWrong(s, s.cache, user.id)
  {
    var es := OverlappingDelivery(user);
    var s1 := Next(s0, es[0]);
    var s2 := Next(s1, es[1]);
    ReadTaken(s1, 0, user.id);
    var s3 := Next(s2, es[2]);
    var s4 := Next(s3, es[3]);
    UpdateTaken(s3, 1, user);
    var s5 := Next(s4, es[4]);
    StoreTaken(s4, 1);
    var s6 := Next(s5, es[5]);
    StoreTaken(s5, 0);
    RunReaches([s0, s1, s2, s3, s4, s5, s6], es, 6);
    assert es[..6] == es;
    assert s6.ops.Keys == {0, 1};
  }

  lemma OverlappingDeliveryIsElseCalm(user: User)
    ensures CacheAlwaysWorks(OverlappingDelivery(user)) && AnswersAlwaysArrive(OverlappingDelivery(user))
  {
  }

  /** Re-caching is not safe while the row is being written: any update that changes a public column is undone in the
      cache, with every call succeeding. */
  lemma OverlapIsNotSafe(s0: State, user: User)
    requires Initial(s0) && s0.cfg.hasCache && user.id in s0.rows && !TakenByOther(s0.rows, user)
    requires Pub(s0.rows[user.id]) != Pub(user)
    ensures var s := Exec(s0, OverlappingDelivery(user)); QuietlyWrong(s, s.cache, user.id)
    ensures CacheAlwaysWorks(OverlappingDelivery(user)) && AnswersAlwaysArrive(OverlappingDelivery(user))
  {
    OverlappingDeliveryIsWrong(s0, user);
    OverlappingDeliveryIsElseCalm(user);
  }

  /** The state after a first read has cached the user. */
  function AfterRead(s0: State, id: string): State
    requires id in s0.rows
  {
    var u, t := s0.rows[id], s0.clock;
    s0.(cache := map[id := Entry(u, t + USER_CACHE_TTL)], stream := if s0.cfg.hasReplica then [SetKey(u, t)] else [],
        ops := map[0 := Done(GetByID(id), Found(u), t)])
  }

  lemma FirstRead(s0: State, id: string)
    requires Initial(s0) && s0.cfg.hasCache && id in s0.rows
    ensures var a := Advance(0, Served, true);
        Next(Next(Next(Next(s0, Start(0, GetByID(id))), a), a), a) == AfterRead(s0, id)
  {
    var a := Advance(0, Served, true);
    var s1 := Next(s0, Start(0, GetByID(id)));
    var s2 := Next(s1, a);
    assert s2 == s0.(ops := map[0 := Missed(GetByID(id))]);
    var s3 := Next(s2, a);
    ReadTaken(s2, 0, id);
    StoreTaken(s3, 0);
    assert Next(s3, a).ops == AfterRead(s0, id).ops;
  }

  function ReadOf(id: string): seq<Event> {
    [Start(0, GetByID(id)), Advance(0, Served, true), Advance(0, Served, true), Advance(0, Served, true)]
  }

  lemma ExecStep(s: State, es: seq<Event>, n: nat)
    requires n < |es|
    ensures es[..0] == [] && Exec(s, es[..n + 1]) == Next(Exec(s, es[..n]), es[n])
  {
    assert es[..n + 1][..n] == es[..n];
  }

  lemma AfterReadOf(s0: State, es: seq<Event>, id: string)
    requires Initial(s0) && s0.cfg.hasCache && id in s0.rows && |es| >= 4 && es[..4] == ReadOf(id)
    ensures Exec(s0, es[..4]) == AfterRead(s0, id)
  {
    assert es[0] == es[..4][0] && es[1] == es[..4][1] && es[2] == es[..4][2] && es[3] == es[..4][3];
    ExecStep(s0, es, 0);
    ExecStep(s0, es, 1);
    ExecStep(s0, es, 2);
    ExecStep(s0, es, 3);
    FirstRead(s0, id);
  }

  lemma ReplicaLeavesOps(s: State)
    ensures Next(s, Replicate).ops == s.ops
  {
  }

  /** A read, perhaps a step of the replica, and then one other call: nothing overlaps. */
  lemma OneAfterTheOther(s0: State, es: seq<Event>, id: string, j: nat)
    requires Initial(s0) && s0.cfg.hasCache && id in s0.rows
    requires 4 <= j < |es| && es[..4] == ReadOf(id) && es[j].Start? && es[j].op == 1
    requires j == 4 || (j == 5 && es[4] == Replicate)
    requires forall n | 0 < n < |es| && n != j :: !es[n].Start?
    ensures NeverOverlaps(s0, es)
  {
    AfterReadOf(s0, es, id);
    if j == 5 {
      ExecStep(s0, es, 4);
      ReplicaLeavesOps(Exec(s0, es[..4]));
    }
    assert Exec(s0, es[..j]).ops == map[0 := Done(GetByID(id), Found(s0.rows[id]), s0.clock)];
    forall n | 0 <= n < |es| ensures NoOverlap(Exec(s0, es[..n]), es[n]) {
      if n == 0 {
        assert Exec(s0, es[..0]).ops == map[];
      }
    }
  }

  /** A cached user, then a delete whose answer is lost: the caller is told it failed and nothing is evicted. */
  function LostDelete(id: string): seq<Event> {
    [Start(0, GetByID(id)), Advance(0, Served, true), Advance(0, Served, true), Advance(0, Served, true),
     Start(1, Delete(id)), Advance(1, Lost, true)]
  }

  lemma LostDeleteIsWrong(s0: State, id: string)
    requires Initial(s0) && s0.cfg.hasCache && !s0.cfg.hasReplica && id in s0.rows
    ensures var s := Exec(s0, LostDelete(id)); QuietlyWrong(s, s.cache, id)
  {
    var es := LostDelete(id);
    var s1 := Next(s0, es[0]);
    var s2 := Next(s1, es[1]);
    var s3 := Next(s2, es[2]);
    var s4 := Next(s3, es[3]);
    FirstRead(s0, id);
    var s5 := Next(s4, es[4]);
    var s6 := Next(s5, es[5]);
    DeleteTaken(s5, 1, id, Lost);
    RunReaches([s0, s1, s2, s3, s4, s5, s6], es, 6);
    assert es[..6] == es;
    assert s6.ops.Keys == {0, 1};
  }

  lemma LostDeleteIsElseCalm(s0: State, id: string)
    requires Initial(s0) && s0.cfg.hasCache && id in s0.rows
    ensures NeverOverlaps(s0, LostDelete(id)) && CacheAlwaysWorks(LostDelete(id))
  {
    OneAfterTheOther(s0, LostDelete(id), id, 4);
  }

  lemma LostAnswerLeavesTheEntry(s0: State, id: string)
    requires Initial(s0) && s0.cfg.hasCache && !s0.cfg.hasReplica && id in s0.rows
    ensures var s := Exec(s0, LostDelete(id)); QuietlyWrong(s, s.cache, id)
    ensures NeverOverlaps(s0, LostDelete(id)) && CacheAlwaysWorks(LostDelete(id))
  {
    LostDeleteIsWrong(s0, id);
    LostDeleteIsElseCalm(s0, id);
  }

  /** A cached user, then an update whose cache write fails. */
  function FailedRefresh(user: User): seq<Event> {
    [Start(0, GetByID(user.id)), Advance(0, Served, true), Advance(0, Served, true), Advance(0, Served, true),
     Start(1, Update(user)), Advance(1, Served, true), Advance(1, Served, false)]
  }

  lemma FailedRefreshIsWrong(s0: State, user: User)
    requires Initial(s0) && s0.cfg.hasCache && !s0.cfg.hasReplica && user.id in s0.rows && !TakenByOther(s0.rows, user)
    requires Pub(s0.rows[user.id]) != Pub(user)
    ensures var s := Exec(s0, FailedRefresh(user)); QuietlyWrong(s, s.cache, user.id)
  {
    var es := FailedRefresh(user);
    var s1 := Next(s0, es[0]);
    var s2 := Next(s1, es[1]);
    var s3 := Next(s2, es[2]);
    var s4 := Next(s3, es[3]);
    FirstRead(s0, user.id);
    var s5 := Next(s4, es[4]);
    var s6 := Next(s5, es[5]);
    UpdateTaken(s5, 1, user);
    var s7 := Next(s6, es[6]);
    RunReaches([s0, s1, s2, s3, s4, s5, s6, s7], es, 7);
    assert es[..7] == es;
    assert s7.ops.Keys == {0, 1};
  }

  lemma FailedRefreshIsElseCalm(s0: State, user: User)
    requires Initial(s0) && s0.cfg.hasCache && user.id in s0.rows
    ensures NeverOverlaps(s0, FailedRefresh(user)) && AnswersAlwaysArrive(FailedRefresh(user))
  {
    OneAfterTheOther(s0, FailedRefresh(user), user.id, 4);
  }

  /** The calm setting needs working cache calls: one failing refresh leaves the old record. */
  lemma FailedCacheWriteLeavesTheEntry(s0: State, user: User)
    requires Initial(s0) && s0.cfg.hasCache && !s0.cfg.hasReplica && user.id in s0.rows && !TakenByOther(s0.rows, user)
    requires Pub(s0.rows[user.id]) != Pub(user)
    ensures var s := Exec(s0, FailedRefresh(user)); QuietlyWrong(s, s.cache, user.id)
    ensures NeverOverlaps(s0, FailedRefresh(user)) && AnswersAlwaysArrive(FailedRefresh(user))
  {
    FailedRefreshIsWrong(s0, user);
    FailedRefreshIsElseCalm(s0, user);
  }

  /** A user in master and replica, then an update that the replica has not heard of yet. */
  function LaggingReplica(user: User): seq<Event> {
    [Start(0, GetByID(user.id)), Advance(0, Served, true), Advance(0, Served, true), Advance(0, Served, true),
        Replicate,
     Start(1, Update(user)), Advance(1, Served, true), Advance(1, Served, true)]
  }

  lemma LaggingReplicaIsWrong(s0: State, user: User)
    requires Initial(s0) && s0.cfg.hasCache && s0.cfg.hasReplica && user.id in s0.rows && !TakenByOther(s0.rows, user)
    requires Pub(s0.rows[user.id]) != Pub(user)
    ensures var s := Exec(s0, LaggingReplica(user)); QuietlyWrong(s, ReadCache(s), user.id)
  {
    var es := LaggingReplica(user);
    var s1 := Next(s0, es[0]);
    var s2 := Next(s1, es[1]);
    var s3 := Next(s2, es[2]);
    var s4 := Next(s3, es[3]);
    FirstRead(s0, user.id);
    var s5 := Next(s4, es[4]);
    var s6 := Next(s5, es[5]);
    var s7 := Next(s6, es[6]);
    UpdateTaken(s6, 1, user);
    var s8 := Next(s7, es[7]);
    StoreTaken(s7, 1);
    RunReaches([s0, s1, s2, s3, s4, s5, s6, s7, s8], es, 8);
    assert es[..8] == es;
    assert s8.ops.Keys == {0, 1};
  }

  lemma LaggingReplicaIsElseCalm(s0: State, user: User)
    requires Initial(s0) && s0.cfg.hasCache && user.id in s0.rows
    ensures CalmRun(s0, LaggingReplica(user))
  {
    OneAfterTheOther(s0, LaggingReplica(user), user.id, 5);
  }

  /** The calm setting needs reads from the master: with everything else in order the replica still shows the old
      record. */
  lemma ReplicaLagsBehind(s0: State, user: User)
    requires Initial(s0) && s0.cfg.hasCache && s0.cfg.hasReplica && user.id in s0.rows && !TakenByOther(s0.rows, user)
    requires Pub(s0.rows[user.id]) != Pub(user)
    ensures var s := Exec(s0, LaggingReplica(user)); QuietlyWrong(s, ReadCache(s), user.id)
    ensures CalmRun(s0, LaggingReplica(user))
  {
    LaggingReplicaIsWrong(s0, user);
    LaggingReplicaIsElseCalm(s0, user);
  }

  /** A delivery's read is overtaken by a delete, caches `gap` later, reaches the replica (if there is one) `wait` after
      that, and the deleted user is served at the end of the key's life. */
  function SlowDelivery(id: string, gap: nat, wait: nat): seq<Event> {
    [Start(0, ProcessUserCreated(id)), Advance(0, Served, true),
     Start(1, Delete(id)), Advance(1, Served, true), Advance(1, Served, true), Replicate,
     Tick(gap), Advance(0, Served, true), Tick(wait), Replicate, Tick(USER_CACHE_TTL - 1),
     Start(2, GetByID(id)), Advance(2, Served, true)]
  }

  /** The delivery's record waits to be cached while the row is deleted. */
  function Overtaken(s0: State, id: string): State
    requires id in s0.rows
  {
    var pending := Storing(ProcessUserCreated(id), s0.rows[id], s0.clock, Ok);
    s0.(rows := s0.rows - {id}, ops := map[0 := pending, 1 := Done(Delete(id), Ok, s0.clock)])
  }

  /** The deleted user is cached. */
  function Revived(s0: State, id: string, gap: nat): State
    requires id in s0.rows
  {
    var u, t := s0.rows[id], s0.clock + gap;
    var clean := Overtaken(s0, id);
    clean.(clock := t, cache := map[id := Entry(u, t + USER_CACHE_TTL)],
           stream := if s0.cfg.hasReplica then [SetKey(u, t)] else [],
           ops := clean.ops[0 := Done(ProcessUserCreated(id), Ok, t)])
  }

  /** The replica has it too, and time passes. */
  function Copied(s0: State, id: string, gap: nat, wait: nat, later: nat): State
    requires id in s0.rows
  {
    var u, t := s0.rows[id], s0.clock + gap + wait;
    Revived(s0, id, gap).(clock := t + later, stream := [],
                          replica := if s0.cfg.hasReplica then map[id := Entry(u, t + USER_CACHE_TTL)] else map[])
  }

  /** The states of that run. */
  function SlowState(s0: State, id: string, gap: nat, wait: nat, n: nat): State
    requires id in s0.rows && n <= 13
  {
    var pending, clean := Storing(ProcessUserCreated(id), s0.rows[id], s0.clock, Ok), Overtaken(s0, id);
    var late := Copied(s0, id, gap, wait, USER_CACHE_TTL - 1);
    if n == 0 then s0
    else if n == 1 then s0.(ops := map[0 := Ready(ProcessUserCreated(id))])
    else if n == 2 then s0.(ops := map[0 := pending])
    else if n == 3 then s0.(ops := map[0 := pending, 1 := Ready(Delete(id))])
    else if n == 4 then clean.(ops := map[0 := pending, 1 := Evicting(Delete(id), s0.clock, Ok)])
    else if n == 5 then clean.(stream := if s0.cfg.hasReplica then [DelKey(id, s0.clock)] else [])
    else if n == 6 then clean
    else if n == 7 then clean.(clock := s0.clock + gap)
    else if n == 8 then Revived(s0, id, gap)
    else if n == 9 then Revived(s0, id, gap).(clock := s0.clock + gap + wait)
    else if n == 10 then Copied(s0, id, gap, wait, 0)
    else if n == 11 then late
    else if n == 12 then Put(late, 2, Ready(GetByID(id)))
    else Put(late, 2, Done(GetByID(id), Found(s0.rows[id]), late.clock))
  }

  ghost predicate SlowStart(s0: State, id: string, wait: nat) {
    Initial(s0) && s0.cfg.hasCache && id in s0.rows && (s0.cfg.hasReplica || wait == 0)
  }

  ghost predicate SlowFollows(s0: State, id: string, gap: nat, wait: nat, n: nat)
    requires id in s0.rows && n < 13
  {
    SlowState(s0, id, gap, wait, n + 1) == Next(SlowState(s0, id, gap, wait, n), SlowDelivery(id, gap, wait)[n])
  }

  lemma SlowStep(s0: State, id: string, gap: nat, wait: nat, n: nat)
    requires SlowStart(s0, id, wait) && n < 13
    ensures SlowFollows(s0, id, gap, wait, n)
  {
    if n == 0 || n == 2 || n == 6 || n == 8 || n == 10 || n == 11 {
      SlowWait(s0, id, gap, wait, n);
    } else if n == 1 {
      SlowRead(s0, id, gap, wait);
    } else if n == 3 {
      SlowDelete(s0, id, gap, wait);
    } else if n == 4 {
      SlowEvict(s0, id, gap, wait);
    } else if n == 7 {
      SlowStore(s0, id, gap, wait);
    } else if n == 12 {
      SlowServe(s0, id, gap, wait);
    } else {
      SlowReplicate(s0, id, gap, wait, n);
    }
  }

  lemma SlowWait(s0: State, id: string, gap: nat, wait: nat, n: nat)
    requires SlowStart(s0, id, wait) && (n == 0 || n == 2 || n == 6 || n == 8 || n == 10 || n == 11)
    ensures SlowFollows(s0, id, gap, wait, n)
  {
  }

  lemma SlowRead(s0: State, id: string, gap: nat, wait: nat)
    requires SlowStart(s0, id, wait)
    ensures SlowFollows(s0, id, gap, wait, 1)
  {
    ReadTaken(SlowState(s0, id, gap, wait, 1), 0, id);
  }

  lemma SlowDelete(s0: State, id: string, gap: nat, wait: nat)
    requires SlowStart(s0, id, wait)
    ensures SlowFollows(s0, id, gap, wait, 3)
  {
    var s, t := SlowState(s0, id, gap, wait, 3), SlowState(s0, id, gap, wait, 4);
    DeleteTaken(s, 1, id, Served);
    assert s.ops[1 := Evicting(Delete(id), s.clock, Ok)] == t.ops;
  }

  lemma SlowEvict(s0: State, id: string, gap: nat, wait: nat)
    requires SlowStart(s0, id, wait)
    ensures SlowFollows(s0, id, gap, wait, 4)
  {
    var s := SlowState(s0, id, gap, wait, 4);
    EvictTaken(s, 1);
    assert s.cache - {id} == s.cache;
  }

  lemma SlowReplicate(s0: State, id: string, gap: nat, wait: nat, n: nat)
    requires SlowStart(s0, id, wait) && (n == 5 || n == 9)
    ensures SlowFollows(s0, id, gap, wait, n)
  {
    var s := SlowState(s0, id, gap, wait, n);
    if n == 5 {
      assert s.replica - {id} == s.replica;
    } else {
      assert s0.rows[id].id == id;
    }
  }

  lemma SlowStore(s0: State, id: string, gap: nat, wait: nat)
    requires SlowStart(s0, id, wait)
    ensures SlowFollows(s0, id, gap, wait, 7)
  {
    var s := SlowState(s0, id, gap, wait, 7);
    StoreTaken(s, 0);
    assert s0.rows[id].id == id;
    assert SetUser(s, s0.rows[id], true).cache == SlowState(s0, id, gap, wait, 8).cache;
  }

  lemma SlowServe(s0: State, id: string, gap: nat, wait: nat)
    requires SlowStart(s0, id, wait)
    ensures SlowFollows(s0, id, gap, wait, 12)
  {
    var s := SlowState(s0, id, gap, wait, 12);
    HitTaken(s, 2, id);
    assert Put(s, 2, Done(GetByID(id), Found(s0.rows[id]), s.clock)).ops == SlowState(s0, id, gap, wait, 13).ops;
  }

  lemma EvictTaken(s: State, op: nat)
    requires op in s.ops && s.ops[op].Evicting?
    ensures Next(s, Advance(op, Served, true)) ==
        Put(DeleteKey(s, IdOf(s.ops[op].call), true), op, Done(s.ops[op].call, s.ops[op].reply, s.clock))
  {
  }

  lemma HitTaken(s: State, op: nat, id: string)
    requires op in s.ops && s.ops[op] == Ready(GetByID(id)) && id in ReadCache(s) && s.clock < ReadCache(s)[id].expires
    ensures Next(s, Advance(op, Served, true)) == Put(s, op, Done(GetByID(id), Found(ReadCache(s)[id].user), s.clock))
  {
  }

  lemma SlowStateIsPrompt(s0: State, id: string, gap: nat, wait: nat, n: nat)
    requires Initial(s0) && id in s0.rows && n <= 13
    ensures Prompt(SlowState(s0, id, gap, wait, n), gap, wait)
  {
    if n <= 7 {
      PendingStateIsPrompt(s0, id, gap, wait, n);
    } else {
      RevivedStateIsPrompt(s0, id, gap, wait, n);
    }
  }

  lemma PendingStateIsPrompt(s0: State, id: string, gap: nat, wait: nat, n: nat)
    requires Initial(s0) && id in s0.rows && n <= 7
    ensures Prompt(SlowState(s0, id, gap, wait, n), gap, wait)
  {
  }

  lemma RevivedStateIsPrompt(s0: State, id: string, gap: nat, wait: nat, n: nat)
    requires Initial(s0) && id in s0.rows && 8 <= n <= 13
    ensures Prompt(SlowState(s0, id, gap, wait, n), gap, wait)
  {
    var s := SlowState(s0, id, gap, wait, n);
    assert forall op | op in s.ops :: !s.ops[op].Storing?;
    if n <= 9 {
      assert s.stream == Revived(s0, id, gap).stream && s.clock <= s0.clock + gap + wait;
    } else {
      assert s.stream == [];
    }
  }

  lemma SlowUserIsGone(s0: State, id: string, gap: nat, wait: nat, n: nat)
    requires id in s0.rows && 4 <= n <= 13
    ensures id !in SlowState(s0, id, gap, wait, n).rows
  {
  }

  lemma SlowRun(s0: State, id: string, gap: nat, wait: nat, n: nat)
    requires SlowStart(s0, id, wait) && n <= 13
    ensures var es := SlowDelivery(id, gap, wait); Exec(s0, es[..n]) == SlowState(s0, id, gap, wait, n)
  {
    var es := SlowDelivery(id, gap, wait);
    var states := seq(14, i requires 0 <= i < 14 => SlowState(s0, id, gap, wait, i));
    forall i: nat | i < |es| ensures states[i + 1] == Next(states[i], es[i]) {
      SlowStep(s0, id, gap, wait, i);
    }
    RunReaches(states, es, n);
  }

  /** Within the delays given, a user gone from the fourth event on is served one second before the window closes. */
  ghost predicate ServesAtTheEdge(s0: State, es: seq<Event>, id: string, gap: nat, lag: nat)
    requires id in s0.rows
  {
    var s := Exec(s0, es);
    && PromptRun(s0, es, gap, lag)
    && 2 in s.ops && s.ops[2] == Done(GetByID(id), Found(s0.rows[id]), s0.clock + Window(s0.cfg, gap, lag) - 1)
    && (forall n | 4 <= n <= |es| :: id !in Past(s0, es)[n].rows)
  }

  lemma SlowRunIsPrompt(s0: State, id: string, gap: nat, lag: nat, wait: nat)
    requires SlowStart(s0, id, wait) && wait <= lag
    ensures PromptRun(s0, SlowDelivery(id, gap, wait), gap, lag)
  {
    var es := SlowDelivery(id, gap, wait);
    forall n | 0 <= n <= |es| ensures Prompt(Exec(s0, es[..n]), gap, lag) {
      SlowRun(s0, id, gap, wait, n);
      SlowStateIsPrompt(s0, id, gap, wait, n);
    }
  }

  lemma SlowUserStaysGone(s0: State, id: string, gap: nat, wait: nat, n: nat)
    requires SlowStart(s0, id, wait) && 4 <= n <= 13
    ensures id !in Past(s0, SlowDelivery(id, gap, wait))[n].rows
  {
    SlowRun(s0, id, gap, wait, n);
    SlowUserIsGone(s0, id, gap, wait, n);
    PastIsTheRun(s0, SlowDelivery(id, gap, wait), n);
  }

  lemma SlowRunServes(s0: State, id: string, gap: nat, lag: nat, wait: nat)
    requires SlowStart(s0, id, wait) && wait == if s0.cfg.hasReplica then lag else 0
    ensures ServesAtTheEdge(s0, SlowDelivery(id, gap, wait), id, gap, lag)
  {
    var es := SlowDelivery(id, gap, wait);
    SlowRunIsPrompt(s0, id, gap, lag, wait);
    forall n | 4 <= n <= |es| ensures id !in Past(s0, es)[n].rows {
      SlowUserStaysGone(s0, id, gap, wait, n);
    }
    SlowRun(s0, id, gap, wait, 13);
    assert es[..13] == es;
  }

  /** The staleness bound cannot be improved: for every gap, and with a replica for every lag, some run within them
      serves, one second before the window closes, a user that was deleted at the start. */
  lemma WindowIsReached(s0: State, id: string, gap: nat, lag: nat)
    requires Initial(s0) && s0.cfg.hasCache && id in s0.rows
    ensures exists es :: ServesAtTheEdge(s0, es, id, gap, lag)
  {
    SlowRunServes(s0, id, gap, lag, if s0.cfg.hasReplica then lag else 0);
  }
}
