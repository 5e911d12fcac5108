/** Reads through the singleflight group over the store: what a caller gets that joined somebody else's GetByID. */
module SharedReads {
  import Store = StoreMachine
  import Group = Singleflight
  import Scripts
  import Staleness

  /** The store, the group in front of it, and the time at which each finished run of an endpoint returned. */
  datatype State = State(store: Store.State, group: Group.State, returned: seq<nat>)

  datatype Event = InStore(step: Store.Event) | InGroup(move: Group.Event)

  function Next(s: State, e: Event): State {
    match e
    case InStore(step) => s.(store := Store.Next(s.store, step))
    case InGroup(move) =>
      var group := Group.Next(s.group, move);
      State(s.store, group, if |group.log| > |s.group.log| then s.returned + [s.store.clock] else s.returned)
  }

  function Exec(s0: Store.State, es: seq<Event>): State {
    if es == [] then State(s0, Group.Exec([]), []) else Next(Exec(s0, es[..|es| - 1]), es[|es| - 1])
  }

  /** GetUserByID's endpoint answers with what its use case answered, at most `delay` seconds later: the value of
      the run is the store's operation. */
  ghost predicate Linked(s: State, e: Event, delay: nat) {
    e.InGroup? && e.move.Finish? && e.move.key in s.group.flights ==>
      Answered(s.store, s.group.flights[e.move.key], e.move.value, s.store.clock, delay)
  }

  ghost predicate Answered(store: Store.State, f: Group.Flight, value: nat, clock: nat, delay: nat) {
    f.endpoint.GetUserByID? && f.request.GetUserByIDRequest? ==>
      && value in store.ops && store.ops[value].Done? && store.ops[value].call == Store.GetByID(f.request.id)
      && clock <= store.ops[value].at + delay
  }

  ghost predicate LinkedRun(s0: Store.State, es: seq<Event>, delay: nat) {
    forall n | 0 <= n < |es| :: Linked(Exec(s0, es[..n]), es[n], delay)
  }

  /** The store's part of a run, and the group's. */
  function StoreEvents(es: seq<Event>): seq<Store.Event> {
    if es == [] then []
    else StoreEvents(es[..|es| - 1]) + if es[|es| - 1].InStore? then [es[|es| - 1].step] else []
  }

  function GroupEvents(es: seq<Event>): seq<Group.Event> {
    if es == [] then []
    else GroupEvents(es[..|es| - 1]) + if es[|es| - 1].InGroup? then [es[|es| - 1].move] else []
  }

  lemma {:induction false} PartsRunAlone(s0: Store.State, es: seq<Event>)
    ensures Exec(s0, es).store == Store.Exec(s0, StoreEvents(es))
    ensures Exec(s0, es).group == Group.Exec(GroupEvents(es))
  {
    if es != [] {
      var fs, e := es[..|es| - 1], es[|es| - 1];
      PartsRunAlone(s0, fs);
      match e {
        case InStore(step) =>
          Store.ExecAppend(s0, StoreEvents(fs), step);
          assert GroupEvents(es) == GroupEvents(fs);
        case InGroup(move) =>
          assert StoreEvents(es) == StoreEvents(fs);
          assert GroupEvents(es)[..|GroupEvents(fs)|] == GroupEvents(fs);
      }
    }
  }

  /** The i-th finished run answered with an operation of the store. */
  ghost predicate RunAnswered(s: State, i: nat, delay: nat)
    requires i < |s.group.log| && i < |s.returned|
  {
    var run := s.group.log[i];
    run.response.Response? ==> Answered(s.store, run.flight, run.response.value, s.returned[i], delay)
  }

  ghost predicate RunsAnswered(s: State, delay: nat) {
    |s.returned| == |s.group.log| && forall i | 0 <= i < |s.returned| :: RunAnswered(s, i, delay)
  }

  lemma DoneStays(s: Store.State, e: Store.Event, op: nat)
    requires op in s.ops && s.ops[op].Done?
    ensures var t := Store.Next(s, e); op in t.ops && t.ops[op] == s.ops[op]
  {
    if e.Advance? && e.op in s.ops && e.op != op {
      Scripts.AdvanceFrame(s, e.op, e.fault, e.cacheOk);
    }
  }

  lemma StepKeepsAnswered(s: State, e: Event, delay: nat)
    requires RunsAnswered(s, delay) && Linked(s, e, delay)
    ensures RunsAnswered(Next(s, e), delay)
  {
    var t := Next(s, e);
    match e
    case InStore(step) =>
      forall i | 0 <= i < |t.returned| ensures RunAnswered(t, i, delay) {
        assert RunAnswered(s, i, delay);
        var run := s.group.log[i];
        if run.response.Response? && run.response.value in s.store.ops && s.store.ops[run.response.value].Done? {
          DoneStays(s.store, step, run.response.value);
        }
      }
    case InGroup(move) =>
      forall i | 0 <= i < |t.returned| ensures RunAnswered(t, i, delay) {
        if i < |s.returned| {
          assert RunAnswered(s, i, delay) && t.group.log[i] == s.group.log[i];
        }
      }
  }

  lemma {:induction false} RunsAreAnswered(s0: Store.State, es: seq<Event>, delay: nat)
    requires LinkedRun(s0, es, delay)
    ensures RunsAnswered(Exec(s0, es), delay)
  {
    if es != [] {
      var fs := es[..|es| - 1];
      forall n | 0 <= n < |fs| ensures Linked(Exec(s0, fs[..n]), fs[n], delay) {
        assert fs[..n] == es[..n];
      }
      RunsAreAnswered(s0, fs, delay);
      assert Linked(Exec(s0, es[..|fs|]), es[|fs|], delay);
      StepKeepsAnswered(Exec(s0, fs), es[|es| - 1], delay);
    }
  }

  /** Leader or joiner, in every interleaving: what GetByID gives a caller is the answer to its own id, and a
      record it gets is, on the public columns, what that row held within the staleness window (and the endpoint's
      delay) of the caller's own return. */
  lemma {:induction false} JoinersGetFreshRecords(s0: Store.State, es: seq<Event>, c: nat, gap: nat, lag: nat,
      delay: nat)
    requires Store.Initial(s0) && LinkedRun(s0, es, delay) && Staleness.PromptRun(s0, StoreEvents(es), gap, lag)
    requires var callers := Exec(s0, es).group.callers;
             c in callers && callers[c].Returned? && callers[c].endpoint.GetUserByID? &&
                 callers[c].request.GetUserByIDRequest?
    ensures var s := Exec(s0, es); var caller := s.group.callers[c];
            && caller.run < |s.returned| && caller.response.Response? && caller.response.value in s.store.ops
            && var op, id := s.store.ops[caller.response.value], caller.request.id;
               && op.Done? && op.call == Store.GetByID(id)
               && (op.reply.Found? ==>
                     Staleness.Held(Staleness.Past(s0, StoreEvents(es)), id, op.reply.user,
                                    s.returned[caller.run] - delay - Staleness.Window(s0.cfg, gap, lag) + 1))
  {
    var s := Exec(s0, es);
    var caller := s.group.callers[c];
    PartsRunAlone(s0, es);
    RunsAreAnswered(s0, es, delay);
    Group.CallersGetTheirOwn(GroupEvents(es), c);
    assert RunAnswered(s, caller.run, delay);
    var op := s.store.ops[caller.response.value];
    if op.reply.Found? {
      Staleness.ServedWithinWindow(s0, StoreEvents(es), caller.response.value, gap, lag);
      var window := Staleness.Window(s0.cfg, gap, lag);
      Staleness.HeldLasts(Staleness.Past(s0, StoreEvents(es)), Staleness.Now(s0), caller.request.id, op.reply.user,
                          op.at - window + 1, s.returned[caller.run] - delay - window + 1);
    }
  }
}
