/** Pub/Sub and RabbitMQ settle message by message. One machine for both: what became of every published message, over
    all runs with crashes, lost acknowledgements and failing dead-letter publishes. */
module Settlement {

  /** The consumer's dead-letter publisher, or the dead-letter exchange of the queue it consumes. */
  datatype Broker = PubSub(dlqPublisher: bool) | RabbitMQ(deadLetterExchange: bool)

  /** Where a delivery is: with the handler, to be dead-lettered, to be acked, to be nacked. */
  datatype Hand = Working | Erred | ToAck | ToNack

  datatype State = State(
    broker: Broker, published: set<nat>, pending: set<nat>, inHand: map<nat, Hand>, settled: set<nat>,
    handled: set<nat>, dead: set<nat>, dropped: set<nat>)

  datatype Event =
    | Publish(m: nat)
    | Deliver(m: nat)
    | HandlerNil(m: nat)
    | HandlerErr(m: nat)
    | DlqPublish(m: nat, ok: bool)
    | Ack(m: nat, arrives: bool)
    | Nack(m: nat, arrives: bool)
    | Crash(m: nat)                // the consumer dies or its lease runs out with m in hand

  function Start(broker: Broker): State {
    State(broker, {}, {}, map[], {}, {}, {}, {})
  }

  predicate At(s: State, m: nat, h: Hand) {
    m in s.inHand && s.inHand[m] == h
  }

  function Move(s: State, m: nat, h: Hand): State {
    s.(inHand := s.inHand[m := h])
  }

  function Requeue(s: State, m: nat): State {
    s.(inHand := s.inHand - {m}, pending := s.pending + {m})
  }

  function Settle(s: State, m: nat): State {
    s.(inHand := s.inHand - {m}, settled := s.settled + {m})
  }

  /** A nack: Pub/Sub redelivers; RabbitMQ is told not to requeue, so the message is dead-lettered or dropped. */
  function NackStep(s: State, m: nat, arrives: bool): State {
    match s.broker
    case PubSub(_) => Requeue(s, m)
    case RabbitMQ(dlx) =>
      if !arrives then Requeue(s, m)
      else if dlx then Settle(s, m).(dead := s.dead + {m})
      else Settle(s, m).(dropped := s.dropped + {m})
  }

  function Next(s: State, e: Event): State {
    match e
    case Publish(m) => if m in s.published then s else s.(published := s.published + {m}, pending := s.pending + {m})
    case Deliver(m) => if m in s.pending then Move(s, m, Working).(pending := s.pending - {m}) else s
    case HandlerNil(m) => if At(s, m, Working) then Move(s, m, ToAck).(handled := s.handled + {m}) else s
    case HandlerErr(m) => if At(s, m, Working) then Move(s, m, if s.broker == PubSub(true) then Erred else ToNack)
        else s
    case DlqPublish(m, ok) =>
      if !At(s, m, Erred) then s
      else if ok then Move(s, m, ToAck).(dead := s.dead + {m})
      else Move(s, m, ToNack)
    case Ack(m, arrives) => if !At(s, m, ToAck) then s else if arrives then Settle(s, m) else Requeue(s, m)
    case Nack(m, arrives) => if At(s, m, ToNack) then NackStep(s, m, arrives) else s
    case Crash(m) => if m in s.inHand then Requeue(s, m) else s
  }

  function Exec(s: State, es: seq<Event>): State {
    if es == [] then s else Next(Exec(s, es[..|es| - 1]), es[|es| - 1])
  }

  /** Every published message is in exactly one place, and it left the queue only by being handled, dead-lettered or,
      on RabbitMQ without a dead-letter exchange, dropped. */
  ghost predicate Conserved(s: State) {
    && s.published == s.pending + s.inHand.Keys + s.settled
    && s.pending !! s.inHand.Keys && s.pending !! s.settled && s.inHand.Keys !! s.settled
    && s.settled <= s.handled + s.dead + s.dropped
    && (forall m | m in s.inHand && s.inHand[m] == ToAck :: m in s.handled + s.dead)
    && (forall m | m in s.inHand && s.inHand[m] == Erred :: s.broker == PubSub(true))
    && s.dropped <= s.settled
    && (s.dropped != {} ==> s.broker == RabbitMQ(false))
    && s.handled + s.dead <= s.published
  }

  lemma StepConserves(s: State, e: Event)
    requires Conserved(s)
    ensures Conserved(Next(s, e)) && Next(s, e).broker == s.broker
  {
  }

  lemma {:induction false} RunsConserve(broker: Broker, es: seq<Event>)
    ensures Conserved(Exec(Start(broker), es)) && Exec(Start(broker), es).broker == broker
  {
    if es != [] {
      RunsConserve(broker, es[..|es| - 1]);
      StepConserves(Exec(Start(broker), es[..|es| - 1]), es[|es| - 1]);
    }
  }

  /** On Pub/Sub nothing is lost: what was published is handled, dead-lettered, or still to be delivered. */
  lemma {:induction false} PubSubLosesNothing(hasDlq: bool, es: seq<Event>, m: nat)
    requires m in Exec(Start(PubSub(hasDlq)), es).published
    ensures var s := Exec(Start(PubSub(hasDlq)), es); m in s.handled || m in s.dead || m in s.pending || m in s.inHand
  {
    RunsConserve(PubSub(hasDlq), es);
  }

  /** A message is acknowledged only after a nil handler result or a successful dead-letter publish. */
  lemma {:induction false} AckedOnlyWhenSafe(broker: Broker, es: seq<Event>, m: nat)
    requires var s := Exec(Start(broker), es); m !in s.settled && m in Next(s, Ack(m, true)).settled
    ensures var s := Exec(Start(broker), es); m in s.handled || m in s.dead
  {
    RunsConserve(broker, es);
  }

  /** A new message reaches the handler, and one in hand when the consumer dies reaches it again: redelivered, it finds
      everything as it was. */
  lemma {:induction false} CrashIsRedelivered(broker: Broker, es: seq<Event>, m: nat)
    ensures var s := Exec(Start(broker), es);
            && (m !in s.published ==> At(Next(Next(s, Publish(m)), Deliver(m)), m, Working))
            && (m in s.inHand ==>
                Next(Next(s, Crash(m)), Deliver(m)) == s.(inHand := s.inHand[m := Working]))
  {
    RunsConserve(broker, es);
    var s := Exec(Start(broker), es);
    if m in s.inHand {
      var t := Next(Next(s, Crash(m)), Deliver(m));
      assert t.pending == s.pending && t.inHand == s.inHand[m := Working];
    }
  }

  /** A message can be dropped exactly on RabbitMQ queues without a dead-letter exchange. */
  lemma DropsExactlyWithoutExchange(broker: Broker)
    ensures (exists es :: Exec(Start(broker), es).dropped != {}) <==> broker == RabbitMQ(false)
  {
    forall es ensures Exec(Start(broker), es).dropped != {} ==> broker == RabbitMQ(false) {
      RunsConserve(broker, es);
    }
    if broker == RabbitMQ(false) {
      var s := Start(broker);
      ExecFour(s, Publish(0), Deliver(0), HandlerErr(0), Nack(0, true));
      assert 0 in Exec(s, [Publish(0), Deliver(0), HandlerErr(0), Nack(0, true)]).dropped;
    }
  }

  lemma ExecFour(s: State, a: Event, b: Event, c: Event, d: Event)
    ensures Exec(s, [a, b, c, d]) == Next(Next(Next(Next(s, a), b), c), d)
  {
    assert [a][..0] == [];
    assert Exec(s, [a]) == Next(s, a);
    assert [a, b][..1] == [a];
    assert Exec(s, [a, b]) == Next(Next(s, a), b);
    assert [a, b, c][..2] == [a, b];
    assert Exec(s, [a, b, c]) == Next(Next(Next(s, a), b), c);
    assert [a, b, c, d][..3] == [a, b, c];
  }

  lemma {:induction false} ExecConcat(s: State, es: seq<Event>, fs: seq<Event>)
    ensures Exec(s, es + fs) == Exec(Exec(s, es), fs)
    decreases |fs|
  {
    if fs == [] {
      assert es + fs == es;
    } else {
      ExecConcat(s, es, fs[..|fs| - 1]);
      assert (es + fs)[..|es + fs| - 1] == es + fs[..|fs| - 1];
    }
  }
}
