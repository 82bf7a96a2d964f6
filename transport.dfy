/**
 * The transport layer: `listenCarTopic` dispatches on the protocol name to an
 * MQTT or an IPFS subscription; the IPFS route is guarded by the running flag.
 */
module Transport {
  import opened Wrappers
  import Series
  import opened CarState
  import NodeLifecycle

  /** The two supported pub/sub protocols. */
  datatype Protocol = Mqtt | Ipfs

  /** The name a protocol is selected by. */
  function ProtocolName(p: Protocol): string
  {
    match p
    case Mqtt => "MQTT"
    case Ipfs => "IPFS"
  }

  /** Recognises a protocol name; every other string is unsupported. */
  function ParseProtocol(name: string): (p: Option<Protocol>)
    ensures p.Some? ==> ProtocolName(p.value) == name
    ensures p.None? ==> forall q :: ProtocolName(q) != name
  {
    if name == "MQTT" then Some(Mqtt)
    else if name == "IPFS" then Some(Ipfs)
    else None
  }

  /**
   * `_subscribe2IPFSCarTopic(topic, msgReceiver, cb)`: only a node marked
   * running is subscribed to (with peer discovery) and only then is the
   * completion callback invoked; otherwise the call just logs and returns.
   */
  function SubscribeIpfs(s: Car, topic: string): (e: Effect)
    ensures e.after == s && e.outcome == Pass
    ensures Completed in e.calls <==> s.ipfsRunning
    ensures PubsubSubscribe(topic, true) in e.calls <==> s.ipfsRunning
    ensures !s.ipfsRunning ==> e.calls == []
  {
    if !s.ipfsRunning then Series.Step(s, [], Pass)
    else Series.Step(s, [PubsubSubscribe(topic, true), Completed], Pass)
  }

  /**
   * `_subscribe2MQTTCarTopic(topic, msgReceiver, cb)`: connects to the broker
   * and registers the 'connect' and 'message' handlers at once; subscribing
   * and completion are left to the 'connect' handler.
   */
  function SubscribeMqtt(s: Car, broker: string): (e: Effect)
    ensures e.after == s && e.outcome == Pass
    ensures Completed !in e.calls && |e.calls| > 0 && e.calls[0] == MqttConnect(broker)
    ensures |e.calls| == 3 && MqttOnConnect in e.calls && MqttOnMessage in e.calls
    ensures forall t :: MqttSubscribe(t) !in e.calls
  {
    Series.Step(s, [MqttConnect(broker), MqttOnConnect, MqttOnMessage], Pass)
  }

  /** The MQTT client's 'connect' handler: subscribe to the topic, then signal completion. */
  function OnMqttConnect(s: Car, topic: string): (e: Effect)
    ensures e.after == s && e.outcome == Pass
    ensures e.calls == [MqttSubscribe(topic), Completed]
  {
    Series.Step(s, [MqttSubscribe(topic), Completed], Pass)
  }

  /**
   * `listenCarTopic(M2MProtocol, topic, msgReceiver, cb)`. The error branch
   * reads an undeclared variable, so what it throws is a ReferenceError.
   */
  function ListenCarTopic(s: Car, protocol: string, topic: string, broker: string): (e: Effect)
    ensures e.after == s
    ensures e.outcome.Fail? <==> protocol != "MQTT" && protocol != "IPFS"
    ensures protocol == "MQTT" ==> e == SubscribeMqtt(s, broker)
    ensures protocol == "IPFS" ==> e == SubscribeIpfs(s, topic)
    ensures e.outcome.Fail? ==> e.calls == [] && e.outcome == Fail(ProtocolNotDefinedError)
  {
    match ParseProtocol(protocol)
    case Some(Mqtt) => SubscribeMqtt(s, broker)
    case Some(Ipfs) => SubscribeIpfs(s, topic)
    case None => Series.Step(s, [], Fail(ProtocolNotDefinedError))
  }

  /**
   * A service attached to a remote node through `startIpfsApi` is never marked
   * running, so listening on the IPFS route afterwards subscribes to nothing
   * and never signals completion, whatever the remote node answered.
   */
  lemma RemoteNodeCannotSubscribe(s: Car, options: string, identity: Result<string, Error>, topic: string, broker: string)
    requires !s.ipfsRunning
    ensures var attached := NodeLifecycle.StartIpfsApi(s, options, identity).after;
            ListenCarTopic(attached, "IPFS", topic, broker).calls == []
  {
  }

  /**
   * After a fully successful `startIpfs`, listening on the IPFS route
   * subscribes to the topic and signals completion.
   */
  lemma StartedNodeSubscribes(s: Car, repo: string, peer: string, env: NodeLifecycle.NodeEnv, topic: string, broker: string)
    requires NodeLifecycle.StartIpfs(s, repo, peer, env).outcome.Pass?
    ensures var started := NodeLifecycle.StartIpfs(s, repo, peer, env).after;
            ListenCarTopic(started, "IPFS", topic, broker).calls == [PubsubSubscribe(topic, true), Completed]
  {
    NodeLifecycle.StartIpfsEffects(s, repo, peer, env);
  }
}
