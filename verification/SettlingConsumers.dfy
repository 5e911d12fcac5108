/** pkg/messaging/pubsub/consumer.go and pkg/messaging/rabbitmq/consumer.go: the receive callback and the delivery
    loop over their queues, proved to take the steps of Settlement. */
module SettlingConsumers {
  import opened Retry
  import opened RetryLaws
  import opened Settlement

  /** One delivery: the retry loop's environment, whether a dead-letter publish works, whether the ack or nack
      arrives. */
  datatype Delivery = Delivery(m: nat, env: Env, dlqOk: bool, arrives: bool)

  function PubSubEvents(p: DeliveryPolicy, hasDlq: bool, d: Delivery): seq<Event> {
    if WithRetrySpec(d.env, p).err.None? then [HandlerNil(d.m), Ack(d.m, d.arrives)]
    else if !hasDlq then [HandlerErr(d.m), Nack(d.m, d.arrives)]
    else [HandlerErr(d.m), DlqPublish(d.m, d.dlqOk)] + [AfterDlq(d)]
  }

  /** How a dead-letter publish ends the delivery. */
  function AfterDlq(d: Delivery): Event {
    if d.dlqOk then Ack(d.m, d.arrives) else Nack(d.m, d.arrives)
  }

  function RabbitEvents(p: DeliveryPolicy, d: Delivery): seq<Event> {
    if WithRetrySpec(d.env, p).err.None? then [HandlerNil(d.m), Ack(d.m, d.arrives)]
    else [HandlerErr(d.m), Nack(d.m, d.arrives)]
  }

  lemma ExecTwo(s: State, a: Event, b: Event)
    ensures Exec(s, [a, b]) == Next(Next(s, a), b)
  {
    assert [a][..0] == [] && [a, b][..1] == [a];
    assert Exec(s, [a]) == Next(s, a);
  }

  lemma ExecOne(s: State, a: Event)
    ensures Exec(s, [a]) == Next(s, a)
  {
    assert [a][..0] == [];
  }

  /** The three events of a delivery that failed under a dead-letter topic. */
  lemma ExecDeadLettered(s: State, d: Delivery)
    ensures Exec(s, [HandlerErr(d.m), DlqPublish(d.m, d.dlqOk)] + [AfterDlq(d)])
         == Next(Next(Next(s, HandlerErr(d.m)), DlqPublish(d.m, d.dlqOk)), AfterDlq(d))
  {
    ExecConcat(s, [HandlerErr(d.m), DlqPublish(d.m, d.dlqOk)], [AfterDlq(d)]);
    ExecTwo(s, HandlerErr(d.m), DlqPublish(d.m, d.dlqOk));
    ExecOne(Exec(s, [HandlerErr(d.m), DlqPublish(d.m, d.dlqOk)]), AfterDlq(d));
  }

  /** The events of a Pub/Sub delivery, one by one. */
  lemma PubSubByStep(s: State, p: DeliveryPolicy, hasDlq: bool, d: Delivery)
    ensures Exec(s, PubSubEvents(p, hasDlq, d)) ==
              if WithRetrySpec(d.env, p).err.None? then Next(Next(s, HandlerNil(d.m)), Ack(d.m, d.arrives))
              else if !hasDlq then Next(Next(s, HandlerErr(d.m)), Nack(d.m, d.arrives))
              else Next(Next(Next(s, HandlerErr(d.m)), DlqPublish(d.m, d.dlqOk)), AfterDlq(d))
  {
    ExecTwo(s, HandlerNil(d.m), Ack(d.m, d.arrives));
    ExecTwo(s, HandlerErr(d.m), Nack(d.m, d.arrives));
    ExecDeadLettered(s, d);
  }

  /** The events of a RabbitMQ delivery, one by one. */
  lemma RabbitByStep(s: State, p: DeliveryPolicy, d: Delivery)
    ensures Exec(s, [Deliver(d.m)] + RabbitEvents(p, d)) ==
              var t := Next(s, Deliver(d.m));
              if WithRetrySpec(d.env, p).err.None? then Next(Next(t, HandlerNil(d.m)), Ack(d.m, d.arrives))
              else Next(Next(t, HandlerErr(d.m)), Nack(d.m, d.arrives))
  {
    var t := Next(s, Deliver(d.m));
    ExecConcat(s, [Deliver(d.m)], RabbitEvents(p, d));
    ExecOne(s, Deliver(d.m));
    ExecTwo(t, HandlerNil(d.m), Ack(d.m, d.arrives));
    ExecTwo(t, HandlerErr(d.m), Nack(d.m, d.arrives));
  }

  /** A subscription and its consumer. */
  class PubSubConsumer {
    const policy: DeliveryPolicy
    const hasDlq: bool
    var backlog: set<nat>   // published, to be delivered
    var leased: set<nat>    // delivered, not settled
    var gone: set<nat>      // settled
    var acked: seq<nat>     // calls of Ack
    var dlq: seq<nat>       // dead letters published
    ghost var state: State

    ghost predicate Valid()
      reads this
    {
      && state.broker == PubSub(hasDlq) && Conserved(state)
      && state.pending == backlog && state.inHand.Keys == leased && state.settled == gone
      && (forall m :: m in dlq <==> m in state.dead)
      && (forall m | m in acked :: m in state.handled || m in state.dead)
      && (forall m | m in gone :: m in acked)
    }

    constructor (policy: DeliveryPolicy)
      ensures Valid() && this.policy == policy && hasDlq == policy.enableDLQ && dlq == [] && acked == []
      ensures state == Start(PubSub(hasDlq))
    {
      this.policy, hasDlq, backlog, leased, gone, acked, dlq := policy, policy.enableDLQ, {}, {}, {}, [], [];
      state := Start(PubSub(policy.enableDLQ));
    }

    method Publish(m: nat)
      requires Valid()
      modifies this
      ensures Valid() && state == Next(old(state), Event.Publish(m)) && acked == old(acked) && dlq == old(dlq)
    {
      if m !in backlog && m !in leased && m !in gone {
        backlog := backlog + {m};
      }
      StepConserves(state, Event.Publish(m));
      state := Next(state, Event.Publish(m));
    }

    method Deliver(m: nat)
      requires Valid() && m in backlog
      modifies this
      ensures Valid() && state == Next(old(state), Event.Deliver(m)) && At(state, m, Working) && acked == old(acked) &&
          dlq == old(dlq)
    {
      backlog, leased := backlog - {m}, leased + {m};
      StepConserves(state, Event.Deliver(m));
      state := Next(state, Event.Deliver(m));
    }

    /** m.Ack(): only what was handled or dead-lettered may go. */
    method Ack(m: nat, arrives: bool)
      requires Valid() && At(state, m, ToAck)
      modifies this
      ensures Valid() && state == Next(old(state), Event.Ack(m, arrives)) && acked == old(acked) + [m] &&
          dlq == old(dlq)
    {
      acked, leased := acked + [m], leased - {m};
      if arrives {
        gone := gone + {m};
      } else {
        backlog := backlog + {m};
      }
      StepConserves(state, Event.Ack(m, arrives));
      state := Next(state, Event.Ack(m, arrives));
    }

    /** m.Nack(): the message is delivered again. */
    method Nack(m: nat, arrives: bool)
      requires Valid() && At(state, m, ToNack)
      modifies this
      ensures Valid() && state == Next(old(state), Event.Nack(m, arrives)) && acked == old(acked) && dlq == old(dlq)
    {
      leased, backlog := leased - {m}, backlog + {m};
      StepConserves(state, Event.Nack(m, arrives));
      state := Next(state, Event.Nack(m, arrives));
    }

    /** The consumer dies, or its lease on the message runs out. */
    method Crash(m: nat)
      requires Valid() && m in leased
      modifies this
      ensures Valid() && state == Next(old(state), Event.Crash(m)) && acked == old(acked) && dlq == old(dlq)
    {
      leased, backlog := leased - {m}, backlog + {m};
      StepConserves(state, Event.Crash(m));
      state := Next(state, Event.Crash(m));
    }

    /** PublishWithMetadata on the dead-letter topic. */
    method PublishDeadLetter(m: nat, ok: bool) returns (sent: bool)
      requires Valid() && At(state, m, Erred)
      modifies this
      ensures Valid() && state == Next(old(state), DlqPublish(m, ok)) && sent == ok && acked == old(acked)
      ensures dlq == if ok then old(dlq) + [m] else old(dlq)
    {
      if ok {
        dlq := dlq + [m];
      }
      StepConserves(state, DlqPublish(m, ok));
      state := Next(state, DlqPublish(m, ok));
      return ok;
    }

    /** The callback given to Receive. */
    method OnMessage(d: Delivery)
      requires Valid() && At(state, d.m, Working)
      modifies this
      ensures Valid() && state == Exec(old(state), PubSubEvents(policy, hasDlq, d))
      ensures var ok := WithRetrySpec(d.env, policy).err.None?;
              && acked == (if ok || (hasDlq && d.dlqOk) then old(acked) + [d.m] else old(acked))
              && dlq == (if !ok && hasDlq && d.dlqOk then old(dlq) + [d.m] else old(dlq))
    {
      PubSubByStep(state, policy, hasDlq, d);
      var err, _ := WithRetry(d.env, policy);
      if err.None? {
        StepConserves(state, HandlerNil(d.m));
        state := Next(state, HandlerNil(d.m));
        Ack(d.m, d.arrives);
        return;
      }
      StepConserves(state, HandlerErr(d.m));
      state := Next(state, HandlerErr(d.m));
      if hasDlq {
        var sent := PublishDeadLetter(d.m, d.dlqOk);
        if sent {
          Ack(d.m, d.arrives);
          return;
        }
      }
      Nack(d.m, d.arrives);
    }
  }

  /** What the loop's select yields: the cancelled context, the closed channel, or a delivery; and what had been
      published to the queue before. */
  datatype Received = Cancelled | Closed | Got(published: seq<nat>, delivery: Delivery)

  function Published(ms: seq<nat>): (es: seq<Event>)
    ensures |es| == |ms|
  {
    seq(|ms|, i requires 0 <= i < |ms| => Publish(ms[i]))
  }

  function ReceivedEvents(p: DeliveryPolicy, r: Received): seq<Event>
    requires r.Got?
  {
    Published(r.published) + ([Deliver(r.delivery.m)] + RabbitEvents(p, r.delivery))
  }

  function LoopEvents(p: DeliveryPolicy, rs: seq<Received>): seq<Event> {
    if rs == [] || !rs[0].Got? then [] else ReceivedEvents(p, rs[0]) + LoopEvents(p, rs[1..])
  }

  /** The broker delivers what is in the queue. */
  ghost predicate Feasible(s: State, p: DeliveryPolicy, rs: seq<Received>)
    decreases |rs|
  {
    rs == [] || !rs[0].Got? ||
    (rs[0].delivery.m in Exec(s, Published(rs[0].published)).pending &&
        Feasible(Exec(s, ReceivedEvents(p, rs[0])), p, rs[1..]))
  }

  /** A queue and its consumer. */
  class RabbitMQConsumer {
    const policy: DeliveryPolicy
    const deadLetterExchange: bool
    var queue: set<nat>
    var unacked: set<nat>   // delivered, not settled
    var gone: set<nat>      // settled
    var acks: seq<nat>
    var nacks: seq<nat>
    var routed: seq<nat>    // sent to the dead-letter exchange
    ghost var state: State

    ghost predicate Valid()
      reads this
    {
      && state.broker == RabbitMQ(deadLetterExchange) && Conserved(state)
      && state.pending == queue && state.inHand.Keys == unacked && state.settled == gone
      && (forall m | m in acks :: m in state.handled)
      && (forall m :: m in routed <==> m in state.dead)
      && (forall m | m in gone :: m in acks || m in nacks)
      && (forall m | m in state.dropped :: m in nacks)
    }

    constructor (policy: DeliveryPolicy, deadLetterExchange: bool)
      ensures Valid() && this.policy == policy && this.deadLetterExchange == deadLetterExchange
      ensures acks == [] && nacks == [] && routed == [] && state == Start(RabbitMQ(deadLetterExchange))
    {
      this.policy, this.deadLetterExchange := policy, deadLetterExchange;
      queue, unacked, gone, acks, nacks, routed := {}, {}, {}, [], [], [];
      state := Start(RabbitMQ(deadLetterExchange));
    }

    method Publish(m: nat)
      requires Valid()
      modifies this
      ensures Valid() && state == Next(old(state), Event.Publish(m)) && acks == old(acks) && nacks == old(nacks)
    {
      if m !in queue && m !in unacked && m !in gone {
        queue := queue + {m};
      }
      StepConserves(state, Event.Publish(m));
      state := Next(state, Event.Publish(m));
    }

    method PublishAll(ms: seq<nat>)
      requires Valid()
      modifies this
      ensures Valid() && state == Exec(old(state), Published(ms)) && acks == old(acks) && nacks == old(nacks)
    {
      for i := 0 to |ms|
        invariant Valid() && state == Exec(old(state), Published(ms)[..i]) && acks == old(acks) && nacks == old(nacks)
      {
        assert Published(ms)[..i + 1][..i] == Published(ms)[..i];
        Publish(ms[i]);
      }
      assert Published(ms)[..|ms|] == Published(ms);
    }

    method Deliver(m: nat)
      requires Valid() && m in queue
      modifies this
      ensures Valid() && state == Next(old(state), Event.Deliver(m)) && At(state, m, Working)
      ensures acks == old(acks) && nacks == old(nacks)
    {
      queue, unacked := queue - {m}, unacked + {m};
      StepConserves(state, Event.Deliver(m));
      state := Next(state, Event.Deliver(m));
    }

    /** d.Ack(false): only what was handled may go. */
    method Ack(m: nat, arrives: bool)
      requires Valid() && At(state, m, ToAck) && m in state.handled
      modifies this
      ensures Valid() && state == Next(old(state), Event.Ack(m, arrives)) && acks == old(acks) + [m] &&
          nacks == old(nacks)
    {
      acks, unacked := acks + [m], unacked - {m};
      if arrives {
        gone := gone + {m};
      } else {
        queue := queue + {m};
      }
      StepConserves(state, Event.Ack(m, arrives));
      state := Next(state, Event.Ack(m, arrives));
    }

    /** d.Nack(false, false): to the dead-letter exchange if the queue has one, otherwise nowhere. */
    method Nack(m: nat, arrives: bool)
      requires Valid() && At(state, m, ToNack)
      modifies this
      ensures Valid() && state == Next(old(state), Event.Nack(m, arrives)) && nacks == old(nacks) + [m] &&
          acks == old(acks)
    {
      nacks, unacked := nacks + [m], unacked - {m};
      if !arrives {
        queue := queue + {m};
      } else {
        gone := gone + {m};
        if deadLetterExchange {
          routed := routed + [m];
        }
      }
      StepConserves(state, Event.Nack(m, arrives));
      state := Next(state, Event.Nack(m, arrives));
    }

    /** The channel closes with the message in hand. */
    method Crash(m: nat)
      requires Valid() && m in unacked
      modifies this
      ensures Valid() && state == Next(old(state), Event.Crash(m)) && acks == old(acks) && nacks == old(nacks)
    {
      unacked, queue := unacked - {m}, queue + {m};
      StepConserves(state, Event.Crash(m));
      state := Next(state, Event.Crash(m));
    }

    /** One settlement per delivery: ack on success, otherwise nack without requeue. */
    method HandleOne(d: Delivery)
      requires Valid() && d.m in queue
      modifies this
      ensures Valid() && state == Exec(old(state), [Event.Deliver(d.m)] + RabbitEvents(policy, d))
      ensures WithRetrySpec(d.env, policy).err.None? ==> acks == old(acks) + [d.m] && nacks == old(nacks)
      ensures WithRetrySpec(d.env, policy).err.Some? ==> nacks == old(nacks) + [d.m] && acks == old(acks)
    {
      RabbitByStep(state, policy, d);
      Deliver(d.m);
      var err, _ := WithRetry(d.env, policy);
      if err.None? {
        StepConserves(state, HandlerNil(d.m));
        state := Next(state, HandlerNil(d.m));
        Ack(d.m, d.arrives);
        return;
      }
      StepConserves(state, HandlerErr(d.m));
      state := Next(state, HandlerErr(d.m));
      Nack(d.m, d.arrives);
    }

    method ConsumeLoop(rs: seq<Received>)
      requires Valid() && Feasible(state, policy, rs)
      modifies this
      ensures Valid() && state == Exec(old(state), LoopEvents(policy, rs))
    {
      ghost var goal := Exec(state, LoopEvents(policy, rs));
      var i := 0;
      assert rs[0..] == rs;
      while i < |rs|
        invariant 0 <= i <= |rs|
        invariant Valid() && Feasible(state, policy, rs[i..])
        invariant goal == Exec(state, LoopEvents(policy, rs[i..]))
      {
        assert rs[i..][0] == rs[i] && rs[i..][1..] == rs[i + 1..];
        match rs[i] {
          case Cancelled => return;
          case Closed => return;
          case Got(published, d) =>
            ExecConcat(state, ReceivedEvents(policy, rs[i]), LoopEvents(policy, rs[i + 1..]));
            ExecConcat(state, Published(published), [Event.Deliver(d.m)] + RabbitEvents(policy, d));
            PublishAll(published);
            HandleOne(d);
        }
        i := i + 1;
      }
    }
  }

  /** `t` is `s` with delivery `m` out of hand: handled, dead-lettered or dropped as told, settled or pending again. */
  ghost predicate Ends(s: State, t: State, m: nat, handled: bool, lettered: bool, dropped: bool, settled: bool) {
    && t.handled == (if handled then s.handled + {m} else s.handled)
    && t.dead == (if lettered then s.dead + {m} else s.dead)
    && t.dropped == (if dropped then s.dropped + {m} else s.dropped)
    && t.settled == (if settled then s.settled + {m} else s.settled)
    && t.pending == (if settled then s.pending - {m} else s.pending + {m})
    && m !in t.inHand
  }

  lemma HandledEnds(s: State, m: nat, arrives: bool)
    requires At(s, m, Working) && m !in s.pending
    ensures Ends(s, Next(Next(s, HandlerNil(m)), Ack(m, arrives)), m, true, false, false, arrives)
  {
  }

  lemma NackedEnds(s: State, m: nat, arrives: bool)
    requires At(s, m, Working) && m !in s.pending && s.broker != PubSub(true)
    ensures var settled := s.broker.RabbitMQ? && arrives;
            Ends(s, Next(Next(s, HandlerErr(m)), Nack(m, arrives)), m, false,
                 settled && s.broker.deadLetterExchange, settled && !s.broker.deadLetterExchange, settled)
  {
  }

  lemma DeadLetteredEnds(s: State, d: Delivery)
    requires At(s, d.m, Working) && d.m !in s.pending && s.broker == PubSub(true)
    ensures Ends(s, Next(Next(Next(s, HandlerErr(d.m)), DlqPublish(d.m, d.dlqOk)), AfterDlq(d)), d.m,
                 false, d.dlqOk, false, d.dlqOk && d.arrives)
  {
  }

  /** Where a delivery in the handler's hands ends up on Pub/Sub: settled if it was handled or dead-lettered and the ack
      arrives, otherwise pending again. */
  lemma PubSubFate(s: State, p: DeliveryPolicy, hasDlq: bool, d: Delivery)
    requires Conserved(s) && s.broker == PubSub(hasDlq) && At(s, d.m, Working)
    ensures var ok := WithRetrySpec(d.env, p).err.None?;
            var lettered := !ok && hasDlq && d.dlqOk;
            Ends(s, Exec(s, PubSubEvents(p, hasDlq, d)), d.m, ok, lettered, false, (ok || lettered) && d.arrives)
  {
    PubSubByStep(s, p, hasDlq, d);
    HandledEnds(s, d.m, d.arrives);
    if hasDlq {
      DeadLetteredEnds(s, d);
    } else {
      NackedEnds(s, d.m, d.arrives);
    }
  }

  /** The same on RabbitMQ, from the queue: a nack that arrives dead-letters the message or drops it. */
  lemma RabbitFate(s: State, p: DeliveryPolicy, dlx: bool, d: Delivery)
    requires Conserved(s) && s.broker == RabbitMQ(dlx) && d.m in s.pending
    ensures var failed := WithRetrySpec(d.env, p).err.Some? && d.arrives;
            Ends(s, Exec(s, [Deliver(d.m)] + RabbitEvents(p, d)), d.m,
                 WithRetrySpec(d.env, p).err.None?, failed && dlx, failed && !dlx, d.arrives)
  {
    RabbitByStep(s, p, d);
    var t := Next(s, Deliver(d.m));
    HandledEnds(t, d.m, d.arrives);
    NackedEnds(t, d.m, d.arrives);
  }

  /** A delivery taken after the context was cancelled never reaches its handler. RabbitMQ dead-letters it, or
      drops it when the queue has no dead-letter exchange; Pub/Sub keeps it, unless a dead-letter publish still works.
      */
  lemma CancelledBeforeHandling(s: State, p: DeliveryPolicy, d: Delivery)
    requires Conserved(s) && d.env.check(0).Some? && d.arrives
    ensures Calls(WithRetrySpec(d.env, p).acts) == 0
    ensures s.broker == RabbitMQ(false) && d.m in s.pending ==>
        d.m in Exec(s, [Deliver(d.m)] + RabbitEvents(p, d)).dropped
    ensures s.broker == RabbitMQ(true) && d.m in s.pending ==> d.m in Exec(s, [Deliver(d.m)] + RabbitEvents(p, d)).dead
    ensures s.broker == PubSub(false) && At(s, d.m, Working) ==> d.m in Exec(s, PubSubEvents(p, false, d)).pending
    ensures s.broker == PubSub(true) && At(s, d.m, Working) ==>
              var t := Exec(s, PubSubEvents(p, true, d));
                  if d.dlqOk then d.m in t.dead && d.m in t.settled else d.m in t.pending
  {
    assert WithRetrySpec(d.env, p).acts == [Check(0)] && WithRetrySpec(d.env, p).err.Some?;
    if s.broker.RabbitMQ? && d.m in s.pending {
      RabbitFate(s, p, s.broker.deadLetterExchange, d);
    }
    if s.broker.PubSub? && At(s, d.m, Working) {
      PubSubFate(s, p, s.broker.dlqPublisher, d);
    }
  }
}
