/** pkg/messaging/rabbitmq/consumer.go: what a whole run of the delivery loop makes of the messages it is given. */
module RabbitLoop {
  import opened Retry
  import opened Settlement
  import opened SettlingConsumers

  /** The message, if the round has one and its handler succeeds in the end. */
  function Success(p: DeliveryPolicy, r: Received): set<nat> {
    if r.Got? && WithRetrySpec(r.delivery.env, p).err.None? then {r.delivery.m} else {}
  }

  /** The message, if its handler fails for good and its nack arrives. */
  function Failure(p: DeliveryPolicy, r: Received): set<nat> {
    if r.Got? && WithRetrySpec(r.delivery.env, p).err.Some? && r.delivery.arrives then {r.delivery.m} else {}
  }

  function Successes(p: DeliveryPolicy, rs: seq<Received>): set<nat> {
    if rs == [] then {} else Success(p, rs[0]) + Successes(p, rs[1..])
  }

  function Failures(p: DeliveryPolicy, rs: seq<Received>): set<nat> {
    if rs == [] then {} else Failure(p, rs[0]) + Failures(p, rs[1..])
  }

  /** From `s` to `t`: what was handled, and what failed and so was dead-lettered or dropped. */
  ghost predicate Settles(s: State, t: State, dlx: bool, handled: set<nat>, failed: set<nat>) {
    && t.handled == s.handled + handled
    && t.dead == s.dead + (if dlx then failed else {})
    && t.dropped == s.dropped + (if dlx then {} else failed)
  }

  lemma SettlesAddUp(s: State, t: State, u: State, dlx: bool, h: set<nat>, f: set<nat>, h': set<nat>, f': set<nat>)
    requires Settles(s, t, dlx, h, f) && Settles(t, u, dlx, h', f')
    ensures Settles(s, u, dlx, h + h', f + f')
  {
  }

  lemma {:induction false} RunConserves(s: State, es: seq<Event>)
    requires Conserved(s)
    ensures Conserved(Exec(s, es)) && Exec(s, es).broker == s.broker
  {
    if es != [] {
      RunConserves(s, es[..|es| - 1]);
      StepConserves(Exec(s, es[..|es| - 1]), es[|es| - 1]);
    }
  }

  lemma {:induction false} PublishingSettlesNothing(s: State, dlx: bool, ms: seq<nat>, n: nat)
    requires n <= |ms|
    ensures Settles(s, Exec(s, Published(ms)[..n]), dlx, {}, {})
  {
    if n > 0 {
      PublishingSettlesNothing(s, dlx, ms, n - 1);
      assert Published(ms)[..n][..n - 1] == Published(ms)[..n - 1];
    }
  }

  /** One round of the loop. */
  lemma RoundSettles(s: State, p: DeliveryPolicy, dlx: bool, r: Received)
    requires Conserved(s) && s.broker == RabbitMQ(dlx) && r.Got?
    requires r.delivery.m in Exec(s, Published(r.published)).pending
    ensures Settles(s, Exec(s, ReceivedEvents(p, r)), dlx, Success(p, r), Failure(p, r))
  {
    var d, queued := r.delivery, Exec(s, Published(r.published));
    assert Published(r.published)[..|r.published|] == Published(r.published);
    PublishingSettlesNothing(s, dlx, r.published, |r.published|);
    RunConserves(s, Published(r.published));
    ExecConcat(s, Published(r.published), [Deliver(d.m)] + RabbitEvents(p, d));
    RabbitFate(queued, p, dlx, d);
  }

  lemma RoundThenRest(s: State, p: DeliveryPolicy, rs: seq<Received>)
    requires rs != [] && rs[0].Got? && Feasible(s, p, rs)
    ensures var after := Exec(s, ReceivedEvents(p, rs[0]));
            Feasible(after, p, rs[1..]) && Exec(s, LoopEvents(p, rs)) == Exec(after, LoopEvents(p, rs[1..]))
  {
    ExecConcat(s, ReceivedEvents(p, rs[0]), LoopEvents(p, rs[1..]));
  }

  lemma OneThenRest(p: DeliveryPolicy, rs: seq<Received>, n: nat)
    requires 0 < n <= |rs|
    ensures Successes(p, rs[..n]) == Success(p, rs[0]) + Successes(p, rs[1..][..n - 1])
    ensures Failures(p, rs[..n]) == Failure(p, rs[0]) + Failures(p, rs[1..][..n - 1])
  {
    assert rs[..n][1..] == rs[1..][..n - 1];
  }

  /** The whole loop, up to the cancellation or the closed channel: every delivery whose handler succeeds is handled,
      every other one whose nack arrives goes to the dead-letter exchange if the queue has one and is dropped if not,
      and nothing else is handled, dead-lettered or dropped. */
  lemma {:induction false} LoopFate(s: State, p: DeliveryPolicy, dlx: bool, rs: seq<Received>, n: nat)
    requires Conserved(s) && s.broker == RabbitMQ(dlx) && Feasible(s, p, rs)
    requires n <= |rs| && (forall k | 0 <= k < n :: rs[k].Got?) && (n < |rs| ==> rs[n].Cancelled? || rs[n].Closed?)
    ensures Settles(s, Exec(s, LoopEvents(p, rs)), dlx, Successes(p, rs[..n]), Failures(p, rs[..n]))
    decreases n
  {
    if n > 0 {
      var after, rest := Exec(s, ReceivedEvents(p, rs[0])), rs[1..];
      RoundSettles(s, p, dlx, rs[0]);
      RunConserves(s, ReceivedEvents(p, rs[0]));
      RoundThenRest(s, p, rs);
      LoopFate(after, p, dlx, rest, n - 1);
      SettlesAddUp(s, after, Exec(after, LoopEvents(p, rest)), dlx, Success(p, rs[0]), Failure(p, rs[0]),
          Successes(p, rest[..n - 1]), Failures(p, rest[..n - 1]));
      OneThenRest(p, rs, n);
    }
  }
}
