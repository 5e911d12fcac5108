/** internal/repository/mq/dynamic_consumer.go: from a topic's settings to the consumer built for it, and to what
    becomes of that topic's messages. */
module TopicConsumers {
  import opened Options
  import opened Errors
  import opened Retry
  import opened RetryLaws
  import opened BackoffTraces
  import opened MQConfig
  import KafkaDelivery
  import KafkaConsumer
  import Settlement
  import SettlingConsumers

  datatype Built =
    | OnKafka(consumer: KafkaConsumer.Consumer, brokers: seq<string>, topic: string, groupID: string)
    | OnRabbitMQ(queueConsumer: SettlingConsumers.RabbitMQConsumer, connection: RabbitMQConfig, topic: string,
        queue: string, prefetch: int)
    | OnPubSub(subscriber: SettlingConsumers.PubSubConsumer, project: PubSubConfig, topic: string, subscription: string)
    | Unbuilt(error: Error)

  function Settings(b: Built): DeliveryPolicy
    requires !b.Unbuilt?
  {
    match b
    case OnKafka(c, _, _, _) => c.policy
    case OnRabbitMQ(c, _, _, _, _) => c.policy
    case OnPubSub(c, _, _, _) => c.policy
  }

  /** The consumer of the topic's own broker, with the topic's settings, each in its place; the queue's dead-letter
      exchange is whatever was declared with it. */
  method BuildConsumer(r: ResolvedTopic, deadLetterExchange: bool) returns (b: Built)
    ensures b.OnKafka? <==> r.brokerType.Kafka?
    ensures b.OnRabbitMQ? <==> r.brokerType.RabbitMQ?
    ensures b.OnPubSub? <==> r.brokerType.PubSub?
    ensures b.OnKafka? ==>
            b.brokers == r.kafka.brokers && b.topic == r.name && b.groupID == r.subscription && fresh(b.consumer) &&
            b.consumer.Valid() && b.consumer.log == [] && b.consumer.state == KafkaDelivery.Start(r.enableDLQ)
    ensures b.OnRabbitMQ? ==>
            b.connection == r.rabbitmq && b.topic == r.name && b.queue == r.subscription &&
            b.prefetch == r.rabbitmq.prefetchCount && fresh(b.queueConsumer) && b.queueConsumer.Valid()
    ensures b.OnPubSub? ==>
            b.project == r.pubsub && b.topic == r.name && b.subscription == r.subscription && fresh(b.subscriber) &&
            b.subscriber.Valid() && b.subscriber.hasDlq == r.enableDLQ
    ensures b.Unbuilt? ==> CodeOf(Some(b.error)) == None
    ensures !b.Unbuilt? ==> var p := Settings(b);
            p.concurrentConsumers == r.concurrentConsumers && p.maxRetries == r.maxRetries &&
            p.initialInterval == r.initialInterval && p.maxInterval == r.maxInterval &&
            p.multiplier == r.multiplier && p.exponentialBackoff == r.exponentialBackoff && p.enableDLQ == r.enableDLQ
  {
    var policy := Policy(r);
    match r.brokerType {
      case Kafka =>
        var consumer := new KafkaConsumer.Consumer(policy);
        b := OnKafka(consumer, r.kafka.brokers, r.name, r.subscription);
      case RabbitMQ =>
        var consumer := new SettlingConsumers.RabbitMQConsumer(policy, deadLetterExchange);
        b := OnRabbitMQ(consumer, r.rabbitmq, r.name, r.subscription, r.rabbitmq.prefetchCount);
      case PubSub =>
        var consumer := new SettlingConsumers.PubSubConsumer(policy);
        b := OnPubSub(consumer, r.pubsub, r.name, r.subscription);
      case Unknown(name) =>
        b := Unbuilt(Plain("mq: unknown broker type " + name + " for topic " + r.key));
    }
  }

  /** The first number that is set. */
  function Setting(own: int, general: int, standard: int): (v: int)
    ensures own != 0 ==> v == own
    ensures own == 0 && general != 0 ==> v == general
    ensures own == 0 && general == 0 ==> v == standard
  {
    Own(own, Own(general, standard, 0), 0)
  }

  /** Whether a topic dead-letters, from the settings as written. */
  function DeadLetters(raw: RawTopicConfig, g: GeneralMQConfig): (b: bool)
    ensures raw.mqConfig.enableDLQ == Some(true) ==> b
    ensures raw.mqConfig.enableDLQ == Some(false) ==> !b
    ensures raw.mqConfig.enableDLQ == None ==> b == g.enableDLQ
  {
    raw.mqConfig.enableDLQ == Some(true) || (raw.mqConfig.enableDLQ == None && g.enableDLQ)
  }

  /** Whether it grows its sleeps. */
  function Exponential(raw: RawTopicConfig, g: GeneralMQConfig): (b: bool)
    ensures raw.mqConfig.exponentialBackoff == Some(true) ==> b
    ensures raw.mqConfig.exponentialBackoff == Some(false) ==> !b
    ensures raw.mqConfig.exponentialBackoff == None ==> b == g.exponentialBackoff
  {
    raw.mqConfig.exponentialBackoff == Some(true) || (raw.mqConfig.exponentialBackoff == None && g.exponentialBackoff)
  }

  /** A handler that keeps failing, on a topic with settings as written: it is called once more than the retries; the
      first sleep is the initial interval; without exponential backoff every sleep is, and with it each later one is at
      most the maximum. What is not set anywhere is 5 retries, 2 and 30 seconds. */
  lemma FailingTopic(r: ResolvedTopic, key: string, raw: RawTopicConfig, g: GeneralMQConfig, sub: string,
      convert: real -> int)
    requires Merged(r, key, raw, g, sub) && NonNegative(raw, g)
    ensures var ov, env, p := raw.mqConfig, AllFail(convert), Policy(r);
            var retries := Setting(ov.maxRetries, g.maxRetries, 5);
            var first := Setting(ov.initialInterval, g.initialInterval, 2) * 1_000_000_000;
            var top := Setting(ov.maxInterval, g.maxInterval, 30) * 1_000_000_000;
            && (retries < TWO_63 - 1 ==> Calls(WithRetrySpec(env, p).acts) == retries + 1)
            && (retries < TWO_63 - 1 && first < TWO_63 ==> SleepsFor(env, p, 0, first))
            && (!Exponential(raw, g) && first < TWO_63 ==> forall i: nat, d | SleepsFor(env, p, i, d) :: d == first)
            && (Exponential(raw, g) && top < TWO_63 ==> forall i: nat, d | i > 0 && SleepsFor(env, p, i, d) :: d <= top)
  {
    var env, p := AllFail(convert), Policy(r);
    FallbacksUnused(r, key, raw, g, sub);
    ExhaustionReportsLastError(env, p);
    if Attempts(p) >= 2 {
      IntervalIsSlept(convert, p, 0);
    }
    forall i: nat, d | SleepsFor(env, p, i, d)
      ensures !p.exponentialBackoff ==> d == FirstInterval(p)
      ensures p.exponentialBackoff && i > 0 ==> d <= Cap(p)
    {
      SleepIsInterval(env, p, i, d);
      SleepsWithinCap(convert, BackoffOf(p), i);
      if !p.exponentialBackoff {
        FixedIntervals(convert, BackoffOf(p), i);
      }
    }
  }

  /** On a topic with exponential backoff each sleep is the one before it times the multiplier as written, or 2 if that
      is at most 1, rounded down, or the maximum as written where that is less. */
  lemma GrowingTopic(r: ResolvedTopic, key: string, raw: RawTopicConfig, g: GeneralMQConfig, sub: string, env: Env,
      m: real, i: nat, d: int, e: int, product: real)
    requires Merged(r, key, raw, g, sub) && NonNegative(raw, g) && Exponential(raw, g)
    requires m == if raw.mqConfig.multiplier != 0.0 then raw.mqConfig.multiplier
        else if g.multiplier != 0.0 then g.multiplier else 2.0
    requires SleepsFor(env, Policy(r), i, d) && SleepsFor(env, Policy(r), i + 1, e)
    requires product == if m > 1.0 then d as real * m else d as real * 2.0
    requires d > 0 && product < TWO_63 as real
    ensures var top := Setting(raw.mqConfig.maxInterval, g.maxInterval, 30) * 1_000_000_000;
            && e as real <= product
            && (top < TWO_63 ==> e <= top && (e < top ==> product < e as real + 1.0))
  {
    FallbacksUnused(r, key, raw, g, sub);
    NextSleepExactly(env, Policy(r), i, d, e, product);
  }

  /** On Kafka, in every run of the topic's consumer: the next message is dead-lettered exactly when its handler fails
      for good, the topic dead-letters, and the write works; and skipped exactly when it fails without that. */
  lemma KafkaTopicFate(r: ResolvedTopic, key: string, raw: RawTopicConfig, g: GeneralMQConfig, sub: string,
      es: seq<KafkaDelivery.Event>, t: KafkaConsumer.Turn)
    requires Merged(r, key, raw, g, sub)
    requires var s := KafkaDelivery.Exec(KafkaDelivery.Start(Policy(r).enableDLQ), es);
             s.stage.Idle? && s.pos < s.end
    ensures var s := KafkaDelivery.Exec(KafkaDelivery.Start(Policy(r).enableDLQ), es);
            var u := KafkaDelivery.Exec(s, KafkaConsumer.TurnEvents(Policy(r), t));
            var failed := WithRetrySpec(t.env, Policy(r)).err.Some?;
            var lettered := failed && DeadLetters(raw, g) && t.dlqOk;
            && u.dead == (if lettered then s.dead + {s.pos} else s.dead)
            && u.skipped == (if failed && !lettered then s.skipped + {s.pos} else s.skipped)
            && u.committed == (if (!failed || lettered) && t.commitOk then s.pos + 1 else s.committed)
  {
    KafkaDelivery.RunsAreAccounted(Policy(r).enableDLQ, es);
    KafkaConsumer.TurnFate(KafkaDelivery.Exec(KafkaDelivery.Start(Policy(r).enableDLQ), es), Policy(r), t);
  }

  /** The same on Pub/Sub, where a message not dead-lettered is delivered again. */
  lemma PubSubTopicFate(r: ResolvedTopic, key: string, raw: RawTopicConfig, g: GeneralMQConfig, sub: string,
      es: seq<Settlement.Event>, d: SettlingConsumers.Delivery)
    requires Merged(r, key, raw, g, sub)
    requires Settlement.At(Settlement.Exec(Settlement.Start(Settlement.PubSub(Policy(r).enableDLQ)), es), d.m,
        Settlement.Working)
    ensures var p := Policy(r);
            var s := Settlement.Exec(Settlement.Start(Settlement.PubSub(p.enableDLQ)), es);
            var u := Settlement.Exec(s, SettlingConsumers.PubSubEvents(p, p.enableDLQ, d));
            var failed := WithRetrySpec(d.env, p).err.Some?;
            var lettered := failed && DeadLetters(raw, g) && d.dlqOk;
            && u.dead == (if lettered then s.dead + {d.m} else s.dead)
            && u.pending == (if (!failed || lettered) && d.arrives then s.pending - {d.m} else s.pending + {d.m})
  {
    var p := Policy(r);
    var s := Settlement.Exec(Settlement.Start(Settlement.PubSub(p.enableDLQ)), es);
    Settlement.RunsConserve(Settlement.PubSub(p.enableDLQ), es);
    SettlingConsumers.PubSubFate(s, p, p.enableDLQ, d);
  }
}
