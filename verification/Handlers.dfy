/** internal/delivery/messaging: from a delivered body to ack or retry, end to end. */
module Handlers {
  import opened Options
  import opened Errors
  import opened Database
  import opened StoreMachine
  import opened UseCases
  import opened CallLaws
  import opened Retry
  import opened RetryLaws
  import KafkaDelivery
  import KafkaConsumer
  import Settlement
  import SettlingConsumers

  datatype Topic = UserCreatedTopic | UserDeletedTopic

  /** What the endpoint returns: a typed response carrying an error field, if any, and an error. */
  datatype EndpointResult = EndpointResult(response: Option<Option<Error>>, err: Option<Error>)

  /** Both Handle methods: `body` is the id decoded from the message, None when it is not valid JSON; nil
      acknowledges. */
  function HandleSpec(body: Option<string>, endpoint: string -> EndpointResult): Option<Error> {
    match body
    case None => None
    case Some(id) =>
      var r := endpoint(id);
      if r.err.Some? then
        (if IsRetryable(r.err) then r.err else None)
      else if r.response.Some? && r.response.value.Some? then
        (if IsRetryable(r.response.value) then r.response.value else None)
      else None
  }

  /** The store as one execution of the endpoint finds it. */
  datatype World = World(cfg: StoreMachine.Config, rows: Table, cache: Cache, replica: Cache, env: UseCases.Env)

  function CallFor(topic: Topic, id: string): Call {
    if topic.UserCreatedTopic? then ProcessUserCreated(id) else ProcessUserDeleted(id)
  }

  /** What one execution of the topic's endpoint does and answers. */
  function Delivered(topic: Topic, w: World, id: string): Effect {
    CallSpec(w.cfg, w.rows, w.cache, w.replica, CallFor(topic, id), w.env)
  }

  /** The endpoint over the use case. */
  function Endpoint(topic: Topic, w: World): string -> EndpointResult {
    (id: string) =>
      match Delivered(topic, w, id).reply
      case Fail(e) => EndpointResult(Some(Some(e)), Some(e))
      case _ => EndpointResult(Some(None), None)
  }

  /** The failure an endpoint reports: its error, or else the one inside its response. */
  function Reported(r: EndpointResult): Option<Error> {
    if r.err.Some? then r.err else if r.response.Some? then r.response.value else None
  }

  /** No AppError decides about `e`, or its code is Internal or none of the taxonomy's. */
  ghost predicate Transient(e: Error) {
    var chain := Chain(e);
    forall k | 0 <= k < |chain| && chain[k].AppError? && (forall j | 0 <= j < k :: !chain[j].AppError?) ::
        chain[k].code.Internal? || chain[k].code.Other?
  }

  lemma TransientIsRetryable(e: Error)
    ensures Transient(e) <==> IsRetryable(Some(e))
  {
    OutermostDecides(e);
    var chain := Chain(e);
    var k := FirstAppIndex(chain);
    forall n | 0 <= n < |chain| && chain[n].AppError? && (forall j | 0 <= j < n :: !chain[j].AppError?) ensures n == k {
      FirstIsUnique(chain, n);
    }
  }

  lemma {:induction false} FirstIsUnique(chain: seq<Error>, n: nat)
    requires n < |chain| && chain[n].AppError? && forall j | 0 <= j < n :: !chain[j].AppError?
    ensures FirstAppIndex(chain) == n
  {
    if n > 0 {
      FirstIsUnique(chain[1..], n - 1);
    }
  }

  /** A delivery is asked for again exactly when its body decodes and the failure reported, whatever it is wrapped
      in, has no terminal code outermost on its chain; it is then that very failure that is passed on. */
  lemma RetriedExactlyWhenTransient(body: Option<string>, endpoint: string -> EndpointResult, contexts: seq<string>)
    ensures var failure := if body.Some? then Reported(endpoint(body.value)) else None;
            && HandleSpec(body, endpoint) == (if failure.Some? && Transient(failure.value) then failure else None)
            && (failure.Some? ==> (Transient(WrapAll(contexts, failure.value)) <==> Transient(failure.value)))
  {
    if body.Some? && Reported(endpoint(body.value)).Some? {
      var e := Reported(endpoint(body.value)).value;
      TransientIsRetryable(e);
      TransientIsRetryable(WrapAll(contexts, e));
      WrappingIsTransparent(contexts, e);
    }
  }

  /** Every error of either use case is terminal, in every world. */
  lemma UseCaseErrorsAreTerminal(topic: Topic, w: World, id: string)
    ensures var reply := Delivered(topic, w, id).reply;
            reply.Fail? ==> !IsRetryable(Some(reply.error))
  {
    var reply := Delivered(topic, w, id).reply;
    if reply.Fail? {
      match GetUserByIDSpec(w.rows, id, w.env.fault) {
        case Failed(e) =>
          assert reply.error == WrapAll(["usecase.ProcessUserCreated"], e);
          WrappingIsTransparent(["usecase.ProcessUserCreated"], e);
      }
    }
  }

  /** A delivery's retry environment: each attempt runs the handler on the same body, in whatever world it finds. */
  function DeliveryEnv(topic: Topic, body: Option<string>, worlds: nat -> World,
                       check: nat -> Option<Error>, wake: nat -> Option<Error>, convert: real -> int): Retry.Env {
    Retry.Env(check, (i: nat) => HandleSpec(body, Endpoint(topic, worlds(i))), wake, convert)
  }

  /** One attempt, then acknowledged: for every topic, body, database and cache outcome and policy, as long as the
      context is not cancelled beforehand. The handler's retry branch is never taken. */
  lemma EveryDeliveryIsAckedAtOnce(
      topic: Topic, body: Option<string>, worlds: nat -> World, check: nat -> Option<Error>, wake: nat -> Option<Error>,
      convert: real -> int, p: DeliveryPolicy)
    requires check(0).None?
    ensures WithRetrySpec(DeliveryEnv(topic, body, worlds, check, wake, convert), p) ==
        Outcome(None, [Check(0), Act.Call(0)])
  {
    var env := DeliveryEnv(topic, body, worlds, check, wake, convert);
    assert env.call(0) == HandleSpec(body, Endpoint(topic, worlds(0)));
    if body.Some? {
      UseCaseErrorsAreTerminal(topic, worlds(0), body.value);
    }
    assert env.call(0).None? && env.check(0).None?;
  }

  /** A user_deleted delivery takes the user out of a working cache and touches nothing else; its endpoint reports
      nothing, whatever the database does. */
  lemma DeletionReachesTheCache(w: World, id: string)
    ensures var e := Delivered(UserDeletedTopic, w, id);
            && e.rows == w.rows && Reported(Endpoint(UserDeletedTopic, w)(id)) == None
            && (w.cfg.hasCache && w.env.storeOk ==> id !in e.cache)
            && (forall k | k != id || !w.cfg.hasCache || !w.env.storeOk ::
                (k in e.cache <==> k in w.cache) && (k in w.cache ==> e.cache[k] == w.cache[k]))
  {
    ProcessUserDeletedExactly(w.cfg, w.rows, w.cache, w.replica, id, w.env);
  }

  /** A user_created delivery whose row is read leaves that row in a working cache for its full life, and one whose row
      is not touches nothing; the endpoint reports NotFound for a missing row and DataAccess for a read not served. */
  lemma CreationReachesTheCache(w: World, id: string)
    requires Keyed(w.rows)
    ensures var e := Delivered(UserCreatedTopic, w, id); var read := w.env.fault.Served? && id in w.rows;
            && e.rows == w.rows
            && CodeOf(Reported(Endpoint(UserCreatedTopic, w)(id))) ==
                (if read then None else if w.env.fault.Served? then Some(NotFound) else Some(DataAccess))
            && (read && w.cfg.hasCache && w.env.storeOk ==>
                id in e.cache && e.cache[id] == Entry(w.rows[id], w.env.now + 1800))
            && (forall k | k != id || !read || !w.cfg.hasCache || !w.env.storeOk ::
                (k in e.cache <==> k in w.cache) && (k in w.cache ==> e.cache[k] == w.cache[k]))
  {
    ProcessUserCreatedExactly(w.cfg, w.rows, w.cache, w.replica, id, w.env);
  }

  /** Both consumers: one topic each, over the same use cases. */
  class UserConsumer {
    const topic: Topic
    const useCase: UserUseCase

    constructor (topic: Topic, useCase: UserUseCase)
      ensures this.topic == topic && this.useCase == useCase
    {
      this.topic, this.useCase := topic, useCase;
    }

    function Here(env: UseCases.Env): World
      reads useCase.db, useCase.cache, useCase.replica
    {
      World(useCase.Wiring(), useCase.db.rows, useCase.Master(),
            if useCase.replica == null then map[] else useCase.replica.entries, env)
    }

    /** What the endpoint leaves in a cache that takes its call. */
    ghost predicate Reached(id: string, env: UseCases.Env, before: Cache)
      reads useCase.db, useCase.cache
    {
      var now, rows := useCase.Master(), useCase.db.rows;
      useCase.cache != null && env.storeOk ==>
        && (topic.UserDeletedTopic? ==> now == before - {id})
        && (topic.UserCreatedTopic? && Keyed(rows) ==>
            now == if env.fault.Served? && id in rows then before[id := Entry(rows[id], env.now + 1800)] else before)
    }

    /** The topic's endpoint. */
    method Process(id: string, env: UseCases.Env) returns (r: EndpointResult)
      modifies useCase.cache
      ensures r == Endpoint(topic, old(Here(env)))(id) && Reached(id, env, old(useCase.Master()))
    {
      ghost var w := Here(env);
      var reply;
      match topic {
        case UserCreatedTopic =>
          if Keyed(w.rows) {
            ProcessUserCreatedExactly(w.cfg, w.rows, w.cache, w.replica, id, env);
          }
          reply := useCase.ProcessUserCreated(id, env);
        case UserDeletedTopic =>
          ProcessUserDeletedExactly(w.cfg, w.rows, w.cache, w.replica, id, env);
          reply := useCase.ProcessUserDeleted(id, env);
      }
      return if reply.Fail? then EndpointResult(Some(Some(reply.error)), Some(reply.error))
          else EndpointResult(Some(None), None);
    }

    /** One delivery: whether it is asked for again, and what it leaves in the cache. A body that does not decode is
        dropped without a trace. */
    method Handle(body: Option<string>, env: UseCases.Env) returns (err: Option<Error>)
      modifies useCase.cache
      ensures err == HandleSpec(body, Endpoint(topic, old(Here(env))))
      ensures if body.Some? then Reached(body.value, env, old(useCase.Master()))
              else useCase.Master() == old(useCase.Master())
    {
      if body.None? {
        return None;
      }
      var r := Process(body.value, env);
      if r.err.Some? {
        if !IsRetryable(r.err) {
          return None;
        }
        return r.err;
      }
      if r.response.Some? && r.response.value.Some? {
        if !IsRetryable(r.response.value) {
          return None;
        }
        return r.response.value;
      }
      return None;
    }
  }

  /** The two effects, at the end of an uncancelled delivery: the one attempt that every delivery gets is enough. */
  lemma OneAttemptIsEnough(
      topic: Topic, id: string, worlds: nat -> World, check: nat -> Option<Error>, wake: nat -> Option<Error>,
      convert: real -> int, p: DeliveryPolicy)
    requires check(0).None? && Keyed(worlds(0).rows) && worlds(0).cfg.hasCache && worlds(0).env.storeOk
    ensures Calls(WithRetrySpec(DeliveryEnv(topic, Some(id), worlds, check, wake, convert), p).acts) == 1
    ensures WithRetrySpec(DeliveryEnv(topic, Some(id), worlds, check, wake, convert), p).err.None?
    ensures var w := worlds(0); var cache := Delivered(topic, w, id).cache;
            if topic.UserDeletedTopic? then id !in cache
            else w.env.fault.Served? && id in w.rows ==>
                id in cache && cache[id] == Entry(w.rows[id], w.env.now + 1800)
  {
    EveryDeliveryIsAckedAtOnce(topic, Some(id), worlds, check, wake, convert, p);
    CountRound(0, 0, []);
    if topic.UserDeletedTopic? {
      DeletionReachesTheCache(worlds(0), id);
    } else {
      CreationReachesTheCache(worlds(0), id);
    }
  }

  /** Kafka: the message is handled, nothing is dead-lettered or skipped, and the mark passes it if the commit works. */
  lemma KafkaHandles(
      topic: Topic, body: Option<string>, worlds: nat -> World, check: nat -> Option<Error>, wake: nat -> Option<Error>,
      convert: real -> int, p: DeliveryPolicy, s: KafkaDelivery.State, t: KafkaConsumer.Turn)
    requires check(0).None? && t.env == DeliveryEnv(topic, body, worlds, check, wake, convert)
    requires s.stage.Idle? && s.pos < s.end && s.enableDLQ == p.enableDLQ
    ensures var u := KafkaDelivery.Exec(s, KafkaConsumer.TurnEvents(p, t));
            && u.handled == s.handled + {s.pos} && u.dead == s.dead && u.skipped == s.skipped
            && u.committed == (if t.commitOk then s.pos + 1 else s.committed)
  {
    EveryDeliveryIsAckedAtOnce(topic, body, worlds, check, wake, convert, p);
    KafkaConsumer.TurnFate(s, p, t);
  }

  /** Pub/Sub: the message is handled and, if the ack arrives, settled; nothing is dead-lettered. */
  lemma {:induction false} PubSubHandles(
      topic: Topic, body: Option<string>, worlds: nat -> World, check: nat -> Option<Error>, wake: nat -> Option<Error>,
      convert: real -> int, p: DeliveryPolicy, hasDlq: bool, s: Settlement.State, d: SettlingConsumers.Delivery)
    requires check(0).None? && d.env == DeliveryEnv(topic, body, worlds, check, wake, convert)
    requires Settlement.Conserved(s) && s.broker == Settlement.PubSub(hasDlq) &&
        Settlement.At(s, d.m, Settlement.Working)
    ensures var t := Settlement.Exec(s, SettlingConsumers.PubSubEvents(p, hasDlq, d));
            && t.handled == s.handled + {d.m} && t.dead == s.dead
            && t.settled == (if d.arrives then s.settled + {d.m} else s.settled)
  {
    EveryDeliveryIsAckedAtOnce(topic, body, worlds, check, wake, convert, p);
    SettlingConsumers.PubSubFate(s, p, hasDlq, d);
  }

  /** RabbitMQ: the same, and nothing is dropped. */
  lemma {:induction false} RabbitMQHandles(
      topic: Topic, body: Option<string>, worlds: nat -> World, check: nat -> Option<Error>, wake: nat -> Option<Error>,
      convert: real -> int, p: DeliveryPolicy, dlx: bool, s: Settlement.State, d: SettlingConsumers.Delivery)
    requires check(0).None? && d.env == DeliveryEnv(topic, body, worlds, check, wake, convert)
    requires Settlement.Conserved(s) && s.broker == Settlement.RabbitMQ(dlx) && d.m in s.pending
    ensures var t := Settlement.Exec(s, [Settlement.Deliver(d.m)] + SettlingConsumers.RabbitEvents(p, d));
            && t.handled == s.handled + {d.m} && t.dead == s.dead && t.dropped == s.dropped
            && t.settled == (if d.arrives then s.settled + {d.m} else s.settled)
  {
    EveryDeliveryIsAckedAtOnce(topic, body, worlds, check, wake, convert, p);
    SettlingConsumers.RabbitFate(s, p, dlx, d);
  }
}
