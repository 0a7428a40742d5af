/** The MQTT publisher's discovery methods, sending retained messages one by one. */
module Publisher {
  import opened Util
  import opened Sources
  import opened Discovery

  class Broker {
    var retained: Retained

    constructor ()
      ensures retained == map[]
    {
      retained := map[];
    }

    /** A retained publish; no payload clears the topic. */
    method PublishRetained(topic: string, payload: Option<Payload>)
      modifies this
      ensures retained == if payload.Some? then old(retained)[topic := payload.value] else old(retained) - {topic}
    {
      if payload.Some? {
        retained := retained[topic := payload.value];
      } else {
        retained := retained - {topic};
      }
    }
  }

  /** One publisher on one broker: `reconfigure` swaps the settings, the broker stays. */
  class MqttPublisher {
    var config: Mqtt
    const broker: Broker

    constructor (config: Mqtt, broker: Broker)
      ensures this.config == config && this.broker == broker
    {
      this.config, this.broker := config, broker;
    }

    method Reconfigure(newConfig: Mqtt)
      modifies this`config
      ensures config == newConfig
    {
      config := newConfig;
    }

    method PublishDiscoveryForSource(source: SourceConfig)
      modifies broker
      ensures broker.retained == Publish(config, source, old(broker.retained))
      ensures config.enabled && config.discovery ==> Announced(config, source, broker.retained)
      ensures !config.enabled || !config.discovery ==> broker.retained == old(broker.retained)
    {
      if !config.enabled || !config.discovery {
        return;
      }
      KindsDistinct(config.discoveryPrefix, source.id, source.id);
      var payloads := [
        (DetectedTopic(config.discoveryPrefix, source.id), DetectedPayload(config, source)),
        (ConnectivityTopic(config.discoveryPrefix, source.id), ConnectivityPayload(config, source))];
      for i := 0 to |payloads|
        invariant i == 1 ==> broker.retained == old(broker.retained)[payloads[0].0 := payloads[0].1]
        invariant i == 0 ==> broker.retained == old(broker.retained)
        invariant i == 2 ==>
          broker.retained == old(broker.retained)[payloads[0].0 := payloads[0].1][payloads[1].0 := payloads[1].1]
      {
        broker.PublishRetained(payloads[i].0, Some(payloads[i].1));
      }
    }

    method RemoveDiscoveryForSource(sourceId: string)
      modifies broker
      ensures broker.retained == Clear(config, sourceId, old(broker.retained))
      ensures config.enabled ==> forall t :: OwnTopic(config.discoveryPrefix, sourceId, t) ==> t !in broker.retained
      ensures !config.enabled ==> broker.retained == old(broker.retained)
    {
      if !config.enabled {
        return;
      }
      var topics := [
        DetectedTopic(config.discoveryPrefix, sourceId), ConnectivityTopic(config.discoveryPrefix, sourceId)];
      for i := 0 to |topics|
        invariant broker.retained == old(broker.retained) - (set j | 0 <= j < i :: topics[j])
      {
        broker.PublishRetained(topics[i], None);
        assert (set j | 0 <= j < i + 1 :: topics[j]) == (set j | 0 <= j < i :: topics[j]) + {topics[i]};
      }
      assert (set j | 0 <= j < 2 :: topics[j]) == {topics[0], topics[1]};
    }

    method PublishSystemDiscovery()
      modifies broker
      ensures broker.retained == PublishSystem(config, old(broker.retained))
      ensures !config.enabled || !config.discovery ==> broker.retained == old(broker.retained)
    {
      if !config.enabled || !config.discovery {
        return;
      }
      broker.PublishRetained(SystemTopic(config.discoveryPrefix), Some(SystemPayload(config)));
    }

    method RemoveSystemDiscovery()
      modifies broker
      ensures broker.retained == ClearSystem(config, old(broker.retained))
      ensures !config.enabled ==> broker.retained == old(broker.retained)
    {
      if !config.enabled {
        return;
      }
      broker.PublishRetained(SystemTopic(config.discoveryPrefix), None);
    }

    /** Sent on every connect. */
    method PublishAllDiscovery(sources: seq<SourceConfig>)
      modifies broker
      ensures broker.retained == PublishAll(config, sources, old(broker.retained))
    {
      PublishSystemDiscovery();
      for i := 0 to |sources|
        invariant broker.retained == PublishAll(config, sources[..i], old(broker.retained))
      {
        PublishDiscoveryForSource(sources[i]);
        assert Front(sources[..i + 1]) == sources[..i];
      }
      assert sources[..|sources|] == sources;
    }

    /** The clean-up when discovery is turned off. */
    method RemoveAllDiscovery(sources: seq<SourceConfig>)
      modifies broker
      ensures broker.retained == ClearAll(config, sources, old(broker.retained))
    {
      RemoveSystemDiscovery();
      for i := 0 to |sources|
        invariant broker.retained == ClearAll(config, sources[..i], old(broker.retained))
      {
        RemoveDiscoveryForSource(sources[i].id);
        assert Front(sources[..i + 1]) == sources[..i];
      }
      assert sources[..|sources|] == sources;
    }
  }
}
