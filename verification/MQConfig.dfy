/** internal/config/mq.go: the general-plus-override merge, and what the merged policy means to the loops that use
    it. */
module MQConfig {
  import opened Options
  import opened Retry

  datatype BrokerType = Kafka | RabbitMQ | PubSub | Unknown(name: string)

  datatype KafkaConfig = KafkaConfig(brokers: seq<string>, compression: string, requiredAcks: int)

  datatype RabbitMQConfig = RabbitMQConfig(
    host: string, port: int, vhost: string, username: string, password: string,
    messageTTL: int, deliveryMode: int, queueType: string, prefetchCount: int)

  datatype PubSubConfig = PubSubConfig(projectID: string, emulatorHost: string)

  datatype GeneralMQConfig = GeneralMQConfig(
    concurrentConsumers: int, exponentialBackoff: bool, initialInterval: int, maxInterval: int, multiplier: real,
    maxRetries: int, enableDLQ: bool, kafka: KafkaConfig, rabbitmq: RabbitMQConfig, pubsub: PubSubConfig)

  /** A zero value means "not set"; only the two booleans can be set to their zero. */
  datatype TopicOverride = TopicOverride(
    concurrentConsumers: int, exponentialBackoff: Option<bool>, initialInterval: int, maxInterval: int,
        multiplier: real,
    maxRetries: int, enableDLQ: Option<bool>, kafka: KafkaConfig, rabbitmq: RabbitMQConfig, pubsub: PubSubConfig)

  datatype RawTopicConfig = RawTopicConfig(name: string, brokerType: BrokerType, subscription: string,
      mqConfig: TopicOverride)

  datatype ResolvedTopic = ResolvedTopic(
    key: string, name: string, brokerType: BrokerType, subscription: string,
    kafka: KafkaConfig, rabbitmq: RabbitMQConfig, pubsub: PubSubConfig,
    concurrentConsumers: int, exponentialBackoff: bool, initialInterval: int, maxInterval: int, multiplier: real,
    maxRetries: int, enableDLQ: bool)

  /** `r` is the first value that is set, or empty when none is. */
  ghost predicate IsFirstSet(values: seq<string>, r: string) {
    if r == "" then forall i | 0 <= i < |values| :: values[i] == ""
    else exists i :: 0 <= i < |values| && values[i] == r && forall j | 0 <= j < i :: values[j] == ""
  }

  method FirstNonEmpty(values: seq<string>) returns (r: string)
    ensures IsFirstSet(values, r)
  {
    for i := 0 to |values|
      invariant forall j | 0 <= j < i :: values[j] == ""
    {
      if values[i] != "" {
        return values[i];
      }
    }
    return "";
  }

  function OrInt(v: int, fallback: int, defaultVal: int): int {
    if v != 0 then v else if fallback != 0 then fallback else defaultVal
  }

  function OrFloat(v: real, fallback: real, defaultVal: real): real {
    if v != 0.0 then v else if fallback != 0.0 then fallback else defaultVal
  }

  function OrBool(v: Option<bool>, fallback: bool): bool {
    if v.Some? then v.value else fallback
  }

  /** One's own setting, or otherwise the inherited one. */
  function Own<T(==)>(own: T, inherited: T, unset: T): T {
    if own != unset then own else inherited
  }

  lemma FirstOfTwo(own: string, inherited: string, r: string)
    requires IsFirstSet([own, inherited], r)
    ensures r == Own(own, inherited, "")
  {
    assert [own, inherited][0] == own && [own, inherited][1] == inherited;
  }

  /** `r` is topic `key` merged: every field by itself is the topic's own value where one is set, else the general one,
      else the default; a topic's broker settings reach only its own broker's block. */
  ghost predicate Merged(r: ResolvedTopic, key: string, raw: RawTopicConfig, g: GeneralMQConfig,
      defaultSubscription: string) {
    var ov := raw.mqConfig;
    && r.key == key && r.name == raw.name && r.brokerType == raw.brokerType
    && r.subscription == Own(raw.subscription, defaultSubscription, "")
    && r.concurrentConsumers == Own(ov.concurrentConsumers, Own(g.concurrentConsumers, 1, 0), 0)
    && r.initialInterval == Own(ov.initialInterval, Own(g.initialInterval, 2, 0), 0)
    && r.maxInterval == Own(ov.maxInterval, Own(g.maxInterval, 30, 0), 0)
    && r.multiplier == Own(ov.multiplier, Own(g.multiplier, 2.0, 0.0), 0.0)
    && r.maxRetries == Own(ov.maxRetries, Own(g.maxRetries, 5, 0), 0)
    && Some(r.exponentialBackoff) == Own(ov.exponentialBackoff, Some(g.exponentialBackoff), None)
    && Some(r.enableDLQ) == Own(ov.enableDLQ, Some(g.enableDLQ), None)
    && r.kafka == (if raw.brokerType == Kafka then KafkaConfig(
         Own(ov.kafka.brokers, g.kafka.brokers, []),
         Own(ov.kafka.compression, g.kafka.compression, ""),
         Own(ov.kafka.requiredAcks, g.kafka.requiredAcks, 0)) else g.kafka)
    && r.rabbitmq == (if raw.brokerType == RabbitMQ then RabbitMQConfig(
         Own(ov.rabbitmq.host, g.rabbitmq.host, ""),
         Own(ov.rabbitmq.port, g.rabbitmq.port, 0),
         Own(ov.rabbitmq.vhost, g.rabbitmq.vhost, ""),
         Own(ov.rabbitmq.username, g.rabbitmq.username, ""),
         Own(ov.rabbitmq.password, g.rabbitmq.password, ""),
         Own(ov.rabbitmq.messageTTL, g.rabbitmq.messageTTL, 0),
         Own(ov.rabbitmq.deliveryMode, g.rabbitmq.deliveryMode, 0),
         Own(ov.rabbitmq.queueType, g.rabbitmq.queueType, ""),
         Own(ov.rabbitmq.prefetchCount, g.rabbitmq.prefetchCount, 0)) else g.rabbitmq)
    && r.pubsub == (if raw.brokerType == PubSub then PubSubConfig(
         Own(ov.pubsub.projectID, g.pubsub.projectID, ""),
         Own(ov.pubsub.emulatorHost, g.pubsub.emulatorHost, "")) else g.pubsub)
  }

  /** The merge of one topic is determined field by field. */
  lemma MergedIsUnique(r: ResolvedTopic, r': ResolvedTopic, key: string, raw: RawTopicConfig, g: GeneralMQConfig,
      sub: string)
    requires Merged(r, key, raw, g, sub) && Merged(r', key, raw, g, sub)
    ensures r == r'
  {
  }

  method ResolveOne(g: GeneralMQConfig, key: string, raw: RawTopicConfig, defaultSubscription: string)
      returns (r: ResolvedTopic)
    ensures Merged(r, key, raw, g, defaultSubscription)
  {
    var subscription := FirstNonEmpty([raw.subscription, defaultSubscription]);
    FirstOfTwo(raw.subscription, defaultSubscription, subscription);
    var ov := raw.mqConfig;
    r := ResolvedTopic(
      key, raw.name, raw.brokerType, subscription, g.kafka, g.rabbitmq, g.pubsub,
      OrInt(ov.concurrentConsumers, g.concurrentConsumers, 1), OrBool(ov.exponentialBackoff, g.exponentialBackoff),
      OrInt(ov.initialInterval, g.initialInterval, 2), OrInt(ov.maxInterval, g.maxInterval, 30),
      OrFloat(ov.multiplier, g.multiplier, 2.0), OrInt(ov.maxRetries, g.maxRetries, 5),
          OrBool(ov.enableDLQ, g.enableDLQ));
    match raw.brokerType {
      case Kafka =>
        var kafka := OverrideKafka(g.kafka, ov.kafka);
        r := r.(kafka := kafka);
      case RabbitMQ =>
        var rabbitmq := OverrideRabbitMQ(g.rabbitmq, ov.rabbitmq);
        r := r.(rabbitmq := rabbitmq);
      case PubSub =>
        var pubsub := OverridePubSub(g.pubsub, ov.pubsub);
        r := r.(pubsub := pubsub);
      case Unknown(_) =>
    }
  }

  method OverrideKafka(general: KafkaConfig, ov: KafkaConfig) returns (r: KafkaConfig)
    ensures r == KafkaConfig(Own(ov.brokers, general.brokers, []), Own(ov.compression, general.compression, ""),
                             Own(ov.requiredAcks, general.requiredAcks, 0))
  {
    r := general;
    if |ov.brokers| > 0 {
      r := r.(brokers := ov.brokers);
    }
    if ov.compression != "" {
      r := r.(compression := ov.compression);
    }
    if ov.requiredAcks != 0 {
      r := r.(requiredAcks := ov.requiredAcks);
    }
  }

  method OverrideRabbitMQ(general: RabbitMQConfig, ov: RabbitMQConfig) returns (r: RabbitMQConfig)
    ensures r == RabbitMQConfig(
      Own(ov.host, general.host, ""), Own(ov.port, general.port, 0), Own(ov.vhost, general.vhost, ""),
      Own(ov.username, general.username, ""), Own(ov.password, general.password, ""),
      Own(ov.messageTTL, general.messageTTL, 0), Own(ov.deliveryMode, general.deliveryMode, 0),
      Own(ov.queueType, general.queueType, ""), Own(ov.prefetchCount, general.prefetchCount, 0))
  {
    r := general;
    if ov.host != "" {
      r := r.(host := ov.host);
    }
    if ov.port != 0 {
      r := r.(port := ov.port);
    }
    if ov.vhost != "" {
      r := r.(vhost := ov.vhost);
    }
    if ov.username != "" {
      r := r.(username := ov.username);
    }
    if ov.password != "" {
      r := r.(password := ov.password);
    }
    if ov.messageTTL != 0 {
      r := r.(messageTTL := ov.messageTTL);
    }
    if ov.deliveryMode != 0 {
      r := r.(deliveryMode := ov.deliveryMode);
    }
    if ov.queueType != "" {
      r := r.(queueType := ov.queueType);
    }
    if ov.prefetchCount != 0 {
      r := r.(prefetchCount := ov.prefetchCount);
    }
  }

  method OverridePubSub(general: PubSubConfig, ov: PubSubConfig) returns (r: PubSubConfig)
    ensures r == PubSubConfig(Own(ov.projectID, general.projectID, ""), Own(ov.emulatorHost, general.emulatorHost, ""))
  {
    r := general;
    if ov.projectID != "" {
      r := r.(projectID := ov.projectID);
    }
    if ov.emulatorHost != "" {
      r := r.(emulatorHost := ov.emulatorHost);
    }
  }

  /** One of the orders in which the topic map may be ranged over. */
  ghost predicate Enumerates(order: seq<string>, topics: map<string, RawTopicConfig>) {
    && (forall k :: k in order <==> k in topics)
    && (forall i, j | 0 <= i < j < |order| :: order[i] != order[j])
  }

  ghost predicate AllMerged(out: map<string, ResolvedTopic>, topics: map<string, RawTopicConfig>, g: GeneralMQConfig,
      sub: string) {
    out.Keys == topics.Keys && forall k | k in out :: Merged(out[k], k, topics[k], g, sub)
  }

  /** The merge of all topics, in whatever order the map is ranged over. */
  method Resolve(g: GeneralMQConfig, topics: map<string, RawTopicConfig>, defaultSubscription: string,
      order: seq<string>)
    returns (out: map<string, ResolvedTopic>)
    requires Enumerates(order, topics)
    ensures AllMerged(out, topics, g, defaultSubscription)
  {
    out := map[];
    for i := 0 to |order|
      invariant forall k :: k in out <==> k in order[..i]
      invariant forall k | k in out :: k in topics && Merged(out[k], k, topics[k], g, defaultSubscription)
    {
      var key := order[i];
      assert key in order && order[..i + 1] == order[..i] + [key];
      var r := ResolveOne(g, key, topics[key], defaultSubscription);
      out := out[key := r];
    }
    assert order[..|order|] == order;
  }

  /** So the result does not depend on that order. */
  lemma ResolveIgnoresOrder(out: map<string, ResolvedTopic>, out': map<string, ResolvedTopic>,
                            topics: map<string, RawTopicConfig>, g: GeneralMQConfig, sub: string)
    requires AllMerged(out, topics, g, sub) && AllMerged(out', topics, g, sub)
    ensures out == out'
  {
    forall k | k in out ensures out[k] == out'[k] {
      MergedIsUnique(out[k], out'[k], k, topics[k], g, sub);
    }
  }

  /** BuildConsumer's policy. */
  function Policy(r: ResolvedTopic): DeliveryPolicy {
    DeliveryPolicy(r.concurrentConsumers, r.exponentialBackoff, r.initialInterval, r.maxInterval, r.multiplier,
        r.maxRetries, r.enableDLQ)
  }

  ghost predicate NonNegative(raw: RawTopicConfig, g: GeneralMQConfig) {
    var ov := raw.mqConfig;
    && 0 <= ov.concurrentConsumers < TWO_63 && 0 <= g.concurrentConsumers < TWO_63
    && 0 <= ov.initialInterval < TWO_63 && 0 <= g.initialInterval < TWO_63
    && 0 <= ov.maxInterval < TWO_63 && 0 <= g.maxInterval < TWO_63
    && 0 <= ov.maxRetries < TWO_63 && 0 <= g.maxRetries < TWO_63
  }

  /** From non-negative settings the loops' own fallbacks are out of reach: the topic's intervals are used as configured
      exactly when they fit 64 bits of nanoseconds, there is one attempt more than its retries, at least two, exactly
      when these are not the largest int64, every consumer runs, and the multiplier is replaced exactly when it is at
      most 1. */
  lemma FallbacksUnused(r: ResolvedTopic, key: string, raw: RawTopicConfig, g: GeneralMQConfig, sub: string)
    requires Merged(r, key, raw, g, sub) && NonNegative(raw, g)
    ensures var p := Policy(r);
            && p.concurrentConsumers == r.concurrentConsumers >= 1
            && (FirstInterval(p) == r.initialInterval * SECOND <==> r.initialInterval * SECOND < TWO_63)
            && (Cap(p) == r.maxInterval * SECOND <==> r.maxInterval * SECOND < TWO_63)
            && (Attempts(p) >= 2 <==> r.maxRetries != TWO_63 - 1)
            && (Attempts(p) >= 2 ==> Attempts(p) == r.maxRetries + 1)
            && (Factor(p) == r.multiplier <==> r.multiplier > 1.0)
  {
    var p := Policy(r);
    assert p.initialInterval >= 1 && p.maxInterval >= 1 && p.maxRetries >= 1;
  }
}
