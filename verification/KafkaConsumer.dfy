/** pkg/messaging/kafka/consumer.go: the consume loop over one partition, proved to take the steps of KafkaDelivery. */
module KafkaConsumer {
  import opened Errors
  import opened Headers
  import opened Retry
  import opened KafkaDelivery

  datatype Message = Message(value: string, headers: seq<Header>)

  /** FetchMessage's answer; a poll that finds no message is `Got` at the end of the log. */
  datatype Fetching = Got | FetchFailed | FetchCancelled

  /** A map's iteration order; it may be another one every time. */
  type Order = Metadata -> seq<string>

  /** What one turn of the loop meets: the messages that arrived before it, a stop, the fetch, the attempts, the
      order in which the header map is ranged over, and whether dead-letter write and commit work. */
  datatype Turn = Turn(
    arrivals: seq<Message>, stop: bool, fetching: Fetching, env: Env, order: Order, dlqOk: bool, commitOk: bool)

  ghost predicate EnumeratesAll(order: Order) {
    forall m :: Enumerates(order(m), m)
  }

  predicate Ends(t: Turn) {
    t.stop || t.fetching.FetchCancelled?
  }

  /** The steps for the message that a turn fetches. */
  function TurnEvents(p: DeliveryPolicy, t: Turn): seq<Event> {
    if WithRetrySpec(t.env, p).err.None? then [Fetch, HandlerNil] + [Commit(t.commitOk)]
    else if !p.enableDLQ then [Fetch, HandlerErr]
    else if t.dlqOk then [Fetch, HandlerErr] + [DlqWrite(true), Commit(t.commitOk)]
    else [Fetch, HandlerErr] + [DlqWrite(false)]
  }

  function Arrived(count: nat): (es: seq<Event>)
    ensures |es| == count
  {
    if count == 0 then [] else Arrived(count - 1) + [Event.Produce]
  }

  /** The steps of the loop and of the producers from turn `i` on, up to the turn that ends it. */
  function LoopEvents(p: DeliveryPolicy, turns: seq<Turn>, i: nat): seq<Event>
    requires i <= |turns|
    decreases |turns| - i
  {
    if i == |turns| then []
    else if Ends(turns[i]) then Arrived(|turns[i].arrivals|)
    else
      Arrived(|turns[i].arrivals|) + (if turns[i].fetching.Got? then TurnEvents(p, turns[i]) else []) +
          LoopEvents(p, turns, i + 1)
  }

  /** What the loop sees arrive from turn `i` on. */
  function Arrivals(turns: seq<Turn>, i: nat): seq<Message>
    requires i <= |turns|
    decreases |turns| - i
  {
    if i == |turns| then []
    else if Ends(turns[i]) then turns[i].arrivals
    else turns[i].arrivals + Arrivals(turns, i + 1)
  }

  /** `letter` is the dead letter of `m`, failed with `e`: its value, its headers in some order, then the error. */
  ghost predicate IsDeadLetter(letter: Message, m: Message, e: Error) {
    exists order :: Enumerates(order, Rebuilt(m.headers)) && letter == Message(m.value, LetterHeaders(m, order, e))
  }

  ghost function LetterHeaders(m: Message, order: seq<string>, e: Error): seq<Header>
    requires Enumerates(order, Rebuilt(m.headers))
  {
    DeadLetterHeaders(Rebuilt(m.headers), order, Text(e))
  }

  /** A reader of the dead-letter topic finds the message with the newest error. */
  lemma DeadLetterReadsBack(letter: Message, m: Message, e: Error)
    requires IsDeadLetter(letter, m, e)
    ensures letter.value == m.value && Rebuilt(letter.headers) == Rebuilt(m.headers)["x-error" := Text(e)]
  {
    var order :| Enumerates(order, Rebuilt(m.headers)) && letter == Message(m.value, LetterHeaders(m, order, e));
    DeadLetterCarriesNewestError(Rebuilt(m.headers), order, Text(e));
  }

  lemma MakesDeadLetter(m: Message, order: seq<string>, e: Error)
    requires Enumerates(order, Rebuilt(m.headers))
    ensures var letter := Message(m.value, LetterHeaders(m, order, e));
        IsDeadLetter(letter, m, e) && LetterOf(m, letter)
  {
  }

  ghost predicate LetterOf(m: Message, letter: Message) {
    exists e :: IsDeadLetter(letter, m, e)
  }

  /** The i-th dead letter is that of offset `lettered[i]`, and these are the dead offsets. */
  ghost predicate LettersOk(log: seq<Message>, dead: set<nat>, letters: seq<Message>, lettered: seq<nat>) {
    && |lettered| == |letters|
    && (forall i | 0 <= i < |letters| :: lettered[i] < |log| && LetterOf(log[lettered[i]], letters[i]))
    && (forall o :: o in dead <==> o in lettered)
  }

  lemma LettersStay(log: seq<Message>, dead: set<nat>, letters: seq<Message>, lettered: seq<nat>, m: Message)
    requires LettersOk(log, dead, letters, lettered)
    ensures LettersOk(log + [m], dead, letters, lettered)
  {
    forall i | 0 <= i < |letters| ensures lettered[i] < |log + [m]| && LetterOf((log + [m])[lettered[i]], letters[i]) {
      assert (log + [m])[lettered[i]] == log[lettered[i]];
    }
  }

  lemma LettersGrow(log: seq<Message>, dead: set<nat>, offset: nat, letters: seq<Message>, lettered: seq<nat>,
      letter: Message)
    requires LettersOk(log, dead, letters, lettered) && offset < |log| && LetterOf(log[offset], letter)
    ensures LettersOk(log, dead + {offset}, letters + [letter], lettered + [offset])
  {
    var ls, os := letters + [letter], lettered + [offset];
    forall i | 0 <= i < |ls| ensures os[i] < |log| && LetterOf(log[os[i]], ls[i]) {
      if i < |letters| {
        assert ls[i] == letters[i] && os[i] == lettered[i];
      }
    }
  }

  class Consumer {
    const policy: DeliveryPolicy
    var log: seq<Message>
    var committed: nat
    var pos: nat
    var dlq: seq<Message>
    ghost var state: State
    ghost var lettered: seq<nat>  // the offsets of the dead letters, in order

    ghost predicate Valid()
      reads this
    {
      && state.committed == committed && state.pos == pos && state.end == |log|
      && state.enableDLQ == policy.enableDLQ
      && Accounted(state)
      && LettersOk(log, state.dead, dlq, lettered)
    }

    constructor (policy: DeliveryPolicy)
      ensures Valid() && this.policy == policy && log == [] && dlq == [] && state == Start(policy.enableDLQ)
    {
      this.policy := policy;
      log, committed, pos, dlq := [], 0, 0, [];
      state, lettered := Start(policy.enableDLQ), [];
    }

    /** A message arrives at the partition. */
    method Produce(m: Message)
      requires Valid()
      modifies this
      ensures Valid() && state == Next(old(state), Event.Produce)
      ensures log == old(log) + [m] && dlq == old(dlq)
    {
      LettersStay(log, state.dead, dlq, lettered, m);
      StepKeepsAccounted(state, Event.Produce);
      log := log + [m];
      state := Next(state, Event.Produce);
    }

    method Arrive(ms: seq<Message>)
      requires Valid()
      modifies this
      ensures Valid() && state == Exec(old(state), Arrived(|ms|)) && state.stage == old(state.stage)
      ensures log == old(log) + ms && dlq == old(dlq)
    {
      for i := 0 to |ms|
        invariant Valid() && state == Exec(old(state), Arrived(i)) && state.stage == old(state.stage)
        invariant log == old(log) + ms[..i] && dlq == old(dlq)
      {
        Produce(ms[i]);
        assert Arrived(i + 1)[..i] == Arrived(i);
        assert ms[..i + 1] == ms[..i] + [ms[i]];
      }
      assert ms[..|ms|] == ms;
    }

    method Commit(ok: bool)
      requires Valid() && state.stage.Settled?
      modifies this
      ensures Valid() && state == Next(old(state), Event.Commit(ok))
      ensures log == old(log) && dlq == old(dlq)
    {
      if ok {
        committed := pos;
      }
      StepKeepsAccounted(state, Event.Commit(ok));
      state := Next(state, Event.Commit(ok));
    }

    /** Write the dead letter of the message in hand; commit if that worked, otherwise leave the offset. */
    method DeadLetter(msg: Message, headers: Metadata, e: Error, t: Turn)
      requires Valid() && policy.enableDLQ && state.stage.Failed? && EnumeratesAll(t.order)
      requires state.stage.offset < |log| && msg == log[state.stage.offset] && headers == Rebuilt(msg.headers)
      modifies this
      ensures Valid() && log == old(log)
      ensures var written := Next(old(state), DlqWrite(t.dlqOk));
              state == if t.dlqOk then Next(written, Event.Commit(t.commitOk)) else written
      ensures if t.dlqOk then |dlq| == |old(dlq)| + 1 && IsDeadLetter(dlq[|dlq| - 1], msg, e) &&
          dlq[..|dlq| - 1] == old(dlq)
              else dlq == old(dlq)
    {
      ghost var s := state;
      assert Enumerates(t.order(headers), headers);
      var dlqHeaders := AppendHeaders(headers, t.order(headers));
      dlqHeaders := dlqHeaders + [Header(HEADER_ERROR, Text(e))];
      StepKeepsAccounted(s, DlqWrite(t.dlqOk));
      state := Next(s, DlqWrite(t.dlqOk));
      if t.dlqOk {
        MakesDeadLetter(msg, t.order(headers), e);
        LettersGrow(log, s.dead, s.stage.offset, dlq, lettered, Message(msg.value, dlqHeaders));
        lettered := lettered + [s.stage.offset];
        dlq := dlq + [Message(msg.value, dlqHeaders)];
        Commit(t.commitOk);
      }
    }

    method FetchMessage() returns (msg: Message)
      requires Valid() && state.stage.Idle? && pos < |log|
      modifies this
      ensures Valid() && state == Next(old(state), Fetch) && state.stage == Fetched(old(pos))
      ensures log == old(log) && dlq == old(dlq) && msg == log[old(pos)]
    {
      msg := log[pos];
      pos := pos + 1;
      StepKeepsAccounted(state, Fetch);
      state := Next(state, Fetch);
    }

    /** One message: rebuild headers, retry the handler, then commit, dead-letter or leave it. */
    method HandleOne(t: Turn)
      requires Valid() && state.stage.Idle? && EnumeratesAll(t.order)
      modifies this
      ensures Valid() && state == Exec(old(state), TurnEvents(policy, t)) && state.stage.Idle?
      ensures log == old(log)
    {
      TurnIsItsSteps(state, policy, t);
      if pos == |log| {
        return;
      }
      var msg := FetchMessage();
      ghost var s1 := state;
      var headers := RebuildHeaders(msg.headers);
      var handleErr, _ := WithRetry(t.env, policy);
      if handleErr.None? {
        state := Next(s1, HandlerNil);
        StepKeepsAccounted(s1, HandlerNil);
        Commit(t.commitOk);
        return;
      }
      state := Next(s1, HandlerErr);
      StepKeepsAccounted(s1, HandlerErr);
      if policy.enableDLQ {
        DeadLetter(msg, headers, handleErr.value, t);
      }
    }

    /** The body of the loop. */
    method TakeTurn(t: Turn) returns (ended: bool)
      requires Valid() && state.stage.Idle? && EnumeratesAll(t.order)
      modifies this
      ensures Valid() && state == AfterTurn(old(state), policy, t) && state.stage.Idle?
      ensures log == old(log) + t.arrivals && (ended <==> Ends(t))
    {
      Arrive(t.arrivals);
      if t.stop {
        return true;
      }
      if t.fetching.FetchCancelled? {
        return true;
      }
      if t.fetching.Got? {
        HandleOne(t);
      }
      return false;
    }

    /** The loop, turn by turn until it is stopped or cancelled, while messages keep arriving. */
    method ConsumeLoop(turns: seq<Turn>)
      requires Valid() && state.stage.Idle? && forall i | 0 <= i < |turns| :: EnumeratesAll(turns[i].order)
      modifies this
      ensures Valid() && state == Exec(old(state), LoopEvents(policy, turns, 0)) && state.stage.Idle?
      ensures log == old(log) + Arrivals(turns, 0)
    {
      ghost var goal, goalLog := Exec(state, LoopEvents(policy, turns, 0)), log + Arrivals(turns, 0);
      var i := 0;
      while i < |turns|
        invariant 0 <= i <= |turns|
        invariant Valid() && state.stage.Idle?
        invariant goal == Exec(state, LoopEvents(policy, turns, i)) && goalLog == log + Arrivals(turns, i)
      {
        TurnThenRest(state, policy, turns, i);
        var ended := TakeTurn(turns[i]);
        if ended {
          return;
        }
        i := i + 1;
      }
    }

    /** A new session after a crash, a stop or a rebalance. */
    method Restart()
      requires Valid()
      modifies this
      ensures Valid() && state == Next(old(state), Event.Restart) && log == old(log) && dlq == old(dlq)
    {
      pos := committed;
      state := Next(state, Event.Restart);
    }
  }

  /** Arrivals, then the message fetched, if any. */
  function AfterTurn(s: State, p: DeliveryPolicy, t: Turn): State {
    var arrived := Exec(s, Arrived(|t.arrivals|));
    if Ends(t) || !t.fetching.Got? then arrived else Exec(arrived, TurnEvents(p, t))
  }

  lemma TurnThenRest(s: State, p: DeliveryPolicy, turns: seq<Turn>, i: nat)
    requires i < |turns|
    ensures var after := AfterTurn(s, p, turns[i]);
            Exec(s, LoopEvents(p, turns, i)) == if Ends(turns[i]) then after
                else Exec(after, LoopEvents(p, turns, i + 1))
  {
    var t := turns[i];
    if !Ends(t) {
      var a := Arrived(|t.arrivals|);
      var handled := if t.fetching.Got? then TurnEvents(p, t) else [];
      ExecConcat(s, a + handled, LoopEvents(p, turns, i + 1));
      ExecConcat(s, a, handled);
    }
  }

  lemma TurnIsItsSteps(s: State, p: DeliveryPolicy, t: Turn)
    ensures var end := Exec(s, TurnEvents(p, t));
            if WithRetrySpec(t.env, p).err.None? then end == Next(Next(Next(s, Fetch), HandlerNil), Commit(t.commitOk))
            else var failed := Next(Next(s, Fetch), HandlerErr);
                 if !p.enableDLQ then end == failed
                 else if t.dlqOk then end == Next(Next(failed, DlqWrite(true)), Commit(t.commitOk))
                 else end == Next(failed, DlqWrite(false))
  {
    ExecTwo(s, Fetch, HandlerNil);
    ExecTwo(s, Fetch, HandlerErr);
    var handled, failed := Exec(s, [Fetch, HandlerNil]), Exec(s, [Fetch, HandlerErr]);
    ExecConcat(s, [Fetch, HandlerNil], [Commit(t.commitOk)]);
    ExecOne(handled, Commit(t.commitOk));
    ExecConcat(s, [Fetch, HandlerErr], [DlqWrite(true), Commit(t.commitOk)]);
    ExecTwo(failed, DlqWrite(true), Commit(t.commitOk));
    ExecConcat(s, [Fetch, HandlerErr], [DlqWrite(false)]);
    ExecOne(failed, DlqWrite(false));
  }

  /** What became of the message at `o`, and of the mark. */
  ghost predicate Fate(s: State, u: State, o: nat, ok: bool, lettered: bool, committed: bool) {
    && u.stage.Idle? && u.pos == o + 1 && u.end == s.end
    && u.handled == (if ok then s.handled + {o} else s.handled)
    && u.dead == (if lettered then s.dead + {o} else s.dead)
    && u.skipped == (if ok || lettered then s.skipped else s.skipped + {o})
    && u.committed == (if committed then o + 1 else s.committed)
    && u.overtaken == (if committed then s.overtaken + s.skipped else s.overtaken)
  }

  lemma HandledFate(s: State, commitOk: bool)
    requires s.stage.Idle? && s.pos < s.end
    ensures Fate(s, Next(Next(Next(s, Fetch), HandlerNil), Commit(commitOk)), s.pos, true, false, commitOk)
  {
  }

  lemma SkippedFate(s: State)
    requires s.stage.Idle? && s.pos < s.end
    ensures s.enableDLQ ==> Fate(s, Next(Next(Next(s, Fetch), HandlerErr), DlqWrite(false)), s.pos, false, false, false)
    ensures !s.enableDLQ ==> Fate(s, Next(Next(s, Fetch), HandlerErr), s.pos, false, false, false)
  {
  }

  lemma LetteredFate(s: State, commitOk: bool)
    requires s.stage.Idle? && s.pos < s.end && s.enableDLQ
    ensures Fate(s, Next(Next(Next(Next(s, Fetch), HandlerErr), DlqWrite(true)), Commit(commitOk)), s.pos, false, true,
        commitOk)
  {
  }

  /** What a turn makes of the message it fetches: handled, dead-lettered or skipped, exactly one of the three;
      and the mark moves past it, and past everything skipped, exactly when it was settled and the commit worked. */
  lemma TurnFate(s: State, p: DeliveryPolicy, t: Turn)
    requires s.stage.Idle? && s.pos < s.end && s.enableDLQ == p.enableDLQ
    ensures var ok := WithRetrySpec(t.env, p).err.None?;
            var lettered := !ok && p.enableDLQ && t.dlqOk;
            Fate(s, Exec(s, TurnEvents(p, t)), s.pos, ok, lettered, (ok || lettered) && t.commitOk)
  {
    TurnIsItsSteps(s, p, t);
    HandledFate(s, t.commitOk);
    SkippedFate(s);
    if p.enableDLQ {
      LetteredFate(s, t.commitOk);
    }
  }
}
